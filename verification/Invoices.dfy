/**
  The life of one invoice (pkg/core/invoice.go, and the row updates of pkg/db/invoices.go and
  pkg/api/handlers.go).

  Times are instants of one clock, in nanoseconds.
*/
module Invoices {
  import opened Wrappers
  import opened Chain
  import opened Payments

  const SECOND := 1_000_000_000
  const HOUR := 3600 * SECOND

  datatype Status = Waiting | Paid | Cancelled | Expired

  datatype Invoice = Invoice(
    recipient: Address,
    currency: Currency,
    amount: int,
    createdAt: int,
    expireAt: int,
    updatedAt: int,
    privateInfo: string,
    metadata: string,
    status: Status,
    overpayment: int,
    paidBy: Option<Address>,
    paidAt: Option<int>,
    txHash: Option<Hash>)

  // Creation

  /** A request as decoded: `amount` is `None` when its string is no number, `currency` when its ticker is unknown. */
  datatype NewInvoice = NewInvoice(
    amount: Option<int>,
    currency: Option<Currency>,
    lifeTime: int,
    privateInfo: string,
    merchantName: string,
    mcc: int,
    metadata: string)

  predicate ValidMetadata(request: NewInvoice) {
    request.merchantName != "" && 0 <= request.mcc <= 9999
  }

  /** The lifetime in nanoseconds, as Go multiplies it: in 64 bits. */
  function LifeSpan(lifeTime: int): int {
    ToInt64(SECOND * lifeTime)
  }

  function ConvertNewInvoice(request: NewInvoice, recipient: Address, now: int): (r: Result<Invoice>)
    ensures r.Ok? ==> Fresh(r.value, now)
  {
    if request.amount.None? || request.amount.value <= 0 then Err
    else if request.lifeTime <= 0 || request.currency.None? || !ValidMetadata(request) then Err
    else
      Ok(Invoice(recipient, request.currency.value, request.amount.value, now, now + LifeSpan(request.lifeTime), now,
                 request.privateInfo, request.metadata, Waiting, 0, None, None, None))
  }

  /** An invoice nobody has touched since `now`. */
  predicate Fresh(inv: Invoice, now: int) {
    && inv.status == Waiting
    && inv.overpayment == 0 < inv.amount
    && inv.createdAt == inv.updatedAt == now
    && inv.paidBy == None && inv.paidAt == None && inv.txHash == None
  }

  /**
    The multiplication overflows for long lifetimes. An accepted invoice expires after its creation
    exactly when the wrapped product is positive, which every lifetime up to 2^63 / 10^9 seconds gives.
  */
  lemma ExpiresAfterCreation(request: NewInvoice, recipient: Address, now: int)
    requires ConvertNewInvoice(request, recipient, now).Ok?
    ensures var inv := ConvertNewInvoice(request, recipient, now).value;
            && (inv.createdAt < inv.expireAt <==> 0 < (SECOND * request.lifeTime) % TWO_64 < TWO_63)
            && (inv.expireAt == inv.createdAt + SECOND * request.lifeTime <==> request.lifeTime <= 9_223_372_036)
  {
    var v := SECOND * request.lifeTime;
    if request.lifeTime > 9_223_372_036 {
      assert v >= TWO_63;
    }
  }

  /** About 292 years and a second ask for an invoice that is expired when it is created. */
  lemma LongLifeTimeExpiresAtOnce(now: int)
    ensures var request := NewInvoice(Some(1), Some(Ton), 9_223_372_037, "", "shop", 0, "");
            var r := ConvertNewInvoice(request, 0, now);
            r.Ok? && r.value.expireAt < r.value.createdAt
  {
  }

  // Row updates

  /** What an invoice has received: its overpayment, and its amount once it is paid. */
  function Received(inv: Invoice): int {
    inv.overpayment + if inv.status == Paid then inv.amount else 0
  }

  /** The row after processPayment: the amount is always booked, the status only moves in time. */
  function Credited(inv: Invoice, p: Payment, now: int): Invoice {
    var booked := inv.(overpayment := inv.overpayment + p.amount, updatedAt := now);
    if inv.status != Waiting || inv.expireAt < now || booked.overpayment < inv.amount then booked
    else booked.(status := Paid, overpayment := booked.overpayment - inv.amount,
                 paidBy := Some(p.paidBy), paidAt := Some(now), txHash := Some(p.txHash))
  }

  function CancelledAt(inv: Invoice, now: int): Invoice {
    if inv.status == Waiting && now < inv.expireAt then inv.(status := Cancelled, updatedAt := now) else inv
  }

  function SweptAt(inv: Invoice, now: int): Invoice {
    if inv.status == Waiting && inv.expireAt < now then inv.(status := Expired, updatedAt := now) else inv
  }

  /** What can happen to an invoice after its creation. */
  datatype Event = Credit(payment: Payment, at: int) | Cancel(at: int) | Sweep(at: int)

  function Step(inv: Invoice, ev: Event): Invoice {
    match ev
    case Credit(p, at) => Credited(inv, p, at)
    case Cancel(at) => CancelledAt(inv, at)
    case Sweep(at) => SweptAt(inv, at)
  }

  function Replay(inv: Invoice, history: seq<Event>): Invoice {
    if history == [] then inv else Step(Replay(inv, history[..|history| - 1]), history[|history| - 1])
  }

  /** The clock starts at `start` and never goes back. */
  ghost predicate Timed(history: seq<Event>, start: int) {
    && (forall i :: 0 <= i < |history| ==> start <= history[i].at)
    && (forall i, j :: 0 <= i < j < |history| ==> history[i].at <= history[j].at)
  }

  // What a history means, without replaying it

  function AmountOf(ev: Event): int {
    if ev.Credit? then ev.payment.amount else 0
  }

  /** The sum of the payments among the first `n` events. */
  function Total(history: seq<Event>, n: nat): int
    requires n <= |history|
  {
    if n == 0 then 0 else Total(history, n - 1) + AmountOf(history[n - 1])
  }

  lemma {:induction false} TotalOfPrefix(history: seq<Event>, m: nat, n: nat)
    requires n <= m <= |history|
    ensures Total(history[..m], n) == Total(history, n)
  {
    if n > 0 {
      TotalOfPrefix(history, m, n - 1);
    }
  }

  /** Event `i` is a payment in time that brings the sum of all payments so far to the amount. */
  ghost predicate Settles(inv: Invoice, history: seq<Event>, i: nat) {
    && i < |history|
    && history[i].Credit?
    && history[i].at <= inv.expireAt
    && inv.amount <= Total(history, i + 1)
  }

  /** Event `i` is a cancellation in time. */
  ghost predicate Revokes(inv: Invoice, history: seq<Event>, i: nat) {
    i < |history| && history[i].Cancel? && history[i].at < inv.expireAt
  }

  /** Event `i` is an expiry sweep after the end of the invoice. */
  ghost predicate Lapses(inv: Invoice, history: seq<Event>, i: nat) {
    i < |history| && history[i].Sweep? && inv.expireAt < history[i].at
  }

  ghost predicate NothingBefore(inv: Invoice, history: seq<Event>, i: nat) {
    forall j: nat :: j < i ==> !Settles(inv, history, j) && !Revokes(inv, history, j)
  }

  /** Event `i` settles the invoice, and nothing before it settled or revoked it. */
  ghost predicate FirstSettles(inv: Invoice, history: seq<Event>, i: nat) {
    Settles(inv, history, i) && NothingBefore(inv, history, i)
  }

  ghost predicate FirstRevokes(inv: Invoice, history: seq<Event>, i: nat) {
    Revokes(inv, history, i) && NothingBefore(inv, history, i)
  }

  /** The state reached by `now` is the one that the history alone prescribes. */
  ghost predicate Explained(inv: Invoice, history: seq<Event>, now: Invoice) {
    && now.overpayment + (if now.status == Paid then inv.amount else 0) == Total(history, |history|)
    && now == inv.(status := now.status, overpayment := now.overpayment, updatedAt := now.updatedAt,
                   paidBy := now.paidBy, paidAt := now.paidAt, txHash := now.txHash)
    && match now.status
       case Waiting =>
         && NothingBefore(inv, history, |history|) && (forall i: nat :: !Lapses(inv, history, i))
         && now.paidBy == None && now.paidAt == None && now.txHash == None
       case Expired =>
         && NothingBefore(inv, history, |history|) && (exists i: nat :: Lapses(inv, history, i))
         && now.paidBy == None && now.paidAt == None && now.txHash == None
       case Cancelled =>
         && (exists i: nat :: FirstRevokes(inv, history, i))
         && now.paidBy == None && now.paidAt == None && now.txHash == None
       case Paid =>
         exists i: nat :: FirstSettles(inv, history, i) && ReceiptOf(history, i, now)
  }

  /** The three receipt columns come from event `i`. */
  ghost predicate ReceiptOf(history: seq<Event>, i: nat, now: Invoice) {
    && i < |history| && history[i].Credit?
    && now.paidBy == Some(history[i].payment.paidBy)
    && now.paidAt == Some(history[i].at)
    && now.txHash == Some(history[i].payment.txHash)
  }

  /**
    `updated_at` dates the last change: it is the time of the creation or of an event, no payment came
    later, and what came later has left the row as it was.
  */
  lemma {:induction false} UpdatedAtLastChange(inv: Invoice, start: int, history: seq<Event>)
    requires Fresh(inv, start) && Timed(history, start)
    ensures var now := Replay(inv, history);
            && (now.updatedAt == start || exists i :: 0 <= i < |history| && history[i].at == now.updatedAt)
            && start <= now.updatedAt
            && (forall i :: 0 <= i < |history| && history[i].Credit? ==> history[i].at <= now.updatedAt)
            && (forall m: nat ::
                  m <= |history| && (forall i :: m <= i < |history| ==> now.updatedAt < history[i].at) ==>
                    Replay(inv, history[..m]) == now)
    decreases |history|
  {
    if history == [] {
      assert history[..0] == history;
    } else {
      var n := |history| - 1;
      UpdatedAtLastChange(inv, start, history[..n]);
      var before, now := Replay(inv, history[..n]), Replay(inv, history);
      assert now == Step(before, history[n]);
      forall m: nat | m <= |history| && forall i :: m <= i < |history| ==> now.updatedAt < history[i].at
        ensures Replay(inv, history[..m]) == now
      {
        if m <= n {
          assert now.updatedAt < history[n].at;
          assert history[..n][..m] == history[..m];
        } else {
          assert history[..m] == history;
        }
      }
    }
  }

  /** Events after the first `m` do not change what the first `m` mean. */
  lemma MeaningOfPrefix(inv: Invoice, history: seq<Event>, m: nat)
    requires m <= |history|
    ensures forall i: nat :: i < m ==> Settles(inv, history[..m], i) == Settles(inv, history, i)
    ensures forall i: nat :: i < m ==> Revokes(inv, history[..m], i) == Revokes(inv, history, i)
    ensures forall i: nat :: i < m ==> Lapses(inv, history[..m], i) == Lapses(inv, history, i)
  {
    forall i: nat | i < m
      ensures Settles(inv, history[..m], i) == Settles(inv, history, i)
    {
      TotalOfPrefix(history, m, i + 1);
    }
  }

  /** Every timed history of an invoice ends in the state that its payments, cancellations and sweeps prescribe. */
  lemma {:induction false} ReplayExplained(inv: Invoice, start: int, history: seq<Event>)
    requires Fresh(inv, start) && Timed(history, start)
    ensures Explained(inv, history, Replay(inv, history))
    decreases |history|
  {
    if history != [] {
      var m := |history| - 1;
      ReplayExplained(inv, start, history[..m]);
      if Replay(inv, history[..m]).status == Waiting {
        StepFromWaiting(inv, history, Replay(inv, history[..m]));
      } else {
        StepFromFinished(inv, start, history, Replay(inv, history[..m]));
      }
    }
  }

  lemma StepFromFinished(inv: Invoice, start: int, history: seq<Event>, before: Invoice)
    requires history != [] && Timed(history, start)
    requires before.status != Waiting && Explained(inv, history[..|history| - 1], before)
    ensures Explained(inv, history, Step(before, history[|history| - 1]))
  {
    var m := |history| - 1;
    MeaningOfPrefix(inv, history, m);
    TotalOfPrefix(history, m, m);
    match before.status
    case Paid =>
      var i: nat :| FirstSettles(inv, history[..m], i) && ReceiptOf(history[..m], i, before);
      assert FirstSettles(inv, history, i) && ReceiptOf(history, i, Step(before, history[m]));
    case Cancelled =>
      var i: nat :| FirstRevokes(inv, history[..m], i);
      assert FirstRevokes(inv, history, i);
    case Expired =>
      var i: nat :| Lapses(inv, history[..m], i);
      assert Lapses(inv, history, i);
  }

  lemma StepFromWaiting(inv: Invoice, history: seq<Event>, before: Invoice)
    requires history != []
    requires before.status == Waiting && Explained(inv, history[..|history| - 1], before)
    ensures Explained(inv, history, Step(before, history[|history| - 1]))
  {
    var m := |history| - 1;
    MeaningOfPrefix(inv, history, m);
    TotalOfPrefix(history, m, m);
    var now := Step(before, history[m]);
    assert NothingBefore(inv, history, m);
    if now.status == Paid {
      assert FirstSettles(inv, history, m) && ReceiptOf(history, m, now);
    } else if now.status == Cancelled {
      assert FirstRevokes(inv, history, m);
    } else if now.status == Expired {
      assert Lapses(inv, history, m);
    }
  }

  /**
    Paid iff some payment in time, with no cancellation in time before it, completes the amount; the
    receipt is the one of the first such payment. The other statuses are decided in the same way.
  */
  lemma StatusIsDeclarative(inv: Invoice, start: int, history: seq<Event>)
    requires Fresh(inv, start) && Timed(history, start)
    ensures var now := Replay(inv, history);
            && (now.status == Paid <==> exists i: nat :: FirstSettles(inv, history, i))
            && (now.status == Cancelled <==> exists i: nat :: FirstRevokes(inv, history, i))
            && (now.status == Expired <==>
                NothingBefore(inv, history, |history|) && exists i: nat :: Lapses(inv, history, i))
            && (forall i: nat :: FirstSettles(inv, history, i) ==> ReceiptOf(history, i, now))
            && now.overpayment == Total(history, |history|) - (if now.status == Paid then inv.amount else 0)
  {
    ReplayExplained(inv, start, history);
    var now := Replay(inv, history);
    forall i: nat, j: nat
      ensures FirstSettles(inv, history, i) && FirstSettles(inv, history, j) ==> i == j
      ensures !(FirstSettles(inv, history, i) && FirstRevokes(inv, history, j))
    {
    }
  }

  /**
    While an invoice waits and its end has not passed, it is short of the amount; and at no instant
    can the same waiting invoice both be paid and be swept away.
  */
  lemma {:induction false} WaitingIsShort(inv: Invoice, start: int, history: seq<Event>, clock: int)
    requires Fresh(inv, start) && Timed(history, start)
    requires forall i :: 0 <= i < |history| ==> history[i].at <= clock
    ensures var now := Replay(inv, history);
            && (now.status == Waiting && clock <= now.expireAt ==> now.overpayment < now.amount)
            && (now.status == Waiting && now.amount <= now.overpayment ==> now.expireAt < clock)
            && (forall p :: Credited(now, p, clock).status == Paid && now.status == Waiting ==>
                  SweptAt(now, clock) == now)
  {
    ShortWhileInTime(inv, start, history);
  }

  lemma {:induction false} ShortWhileInTime(inv: Invoice, start: int, history: seq<Event>)
    requires Fresh(inv, start) && Timed(history, start)
    ensures var now := Replay(inv, history);
            now.expireAt == inv.expireAt && now.amount == inv.amount &&
            (now.status == Waiting && (history == [] || history[|history| - 1].at <= inv.expireAt) ==>
               now.overpayment < inv.amount)
    decreases |history|
  {
    if history != [] {
      ShortWhileInTime(inv, start, history[..|history| - 1]);
    }
  }

  /** The record of a paid invoice: complete, and made between creation and end. */
  lemma PaidRecord(inv: Invoice, start: int, history: seq<Event>)
    requires Fresh(inv, start) && Timed(history, start)
    ensures var now := Replay(inv, history);
            && (now.status == Paid <==> now.paidBy.Some?)
            && (now.status == Paid <==> now.paidAt.Some?)
            && (now.status == Paid <==> now.txHash.Some?)
            && (now.status == Paid ==> now.createdAt <= now.paidAt.value <= now.expireAt)
  {
    ReplayExplained(inv, start, history);
  }

  /** Whatever happens next, in whatever order: a finished invoice keeps its status and its receipt. */
  lemma {:induction false} FinishedIsFinal(inv: Invoice, history: seq<Event>)
    requires inv.status != Waiting
    ensures var now := Replay(inv, history);
            now == inv.(overpayment := now.overpayment, updatedAt := now.updatedAt)
    decreases |history|
  {
    if history != [] {
      FinishedIsFinal(inv, history[..|history| - 1]);
    }
  }

  // Order independence

  function Amounts(history: seq<Event>): seq<int> {
    if history == [] then []
    else
      var rest := Amounts(history[..|history| - 1]);
      if history[|history| - 1].Credit? then rest + [history[|history| - 1].payment.amount] else rest
  }

  function Sum(xs: seq<int>): int {
    if xs == [] then 0 else Sum(xs[..|xs| - 1]) + xs[|xs| - 1]
  }

  lemma {:induction false} TotalIsSum(history: seq<Event>)
    ensures Total(history, |history|) == Sum(Amounts(history))
    decreases |history|
  {
    if history != [] {
      var m := |history| - 1;
      TotalIsSum(history[..m]);
      TotalOfPrefix(history, m, m);
      if history[m].Credit? {
        assert Amounts(history)[..|Amounts(history)| - 1] == Amounts(history[..m]);
      }
    }
  }

  lemma {:induction false} SumWithout(xs: seq<int>, i: nat)
    requires i < |xs|
    ensures Sum(xs) == xs[i] + Sum(xs[..i] + xs[i + 1..])
    decreases |xs|
  {
    var m := |xs| - 1;
    if i < m {
      SumWithout(xs[..m], i);
      var shorter := xs[..i] + xs[i + 1..];
      assert shorter[..|shorter| - 1] == xs[..m][..i] + xs[..m][i + 1..];
    } else {
      assert xs[..i] + xs[i + 1..] == xs[..m];
    }
  }

  /** Without one occurrence of the same number, permutations stay permutations. */
  lemma Removed(xs: seq<int>, i: nat)
    requires i < |xs|
    ensures multiset(xs[..i] + xs[i + 1..]) == multiset(xs) - multiset{xs[i]}
  {
    assert xs == xs[..i] + [xs[i]] + xs[i + 1..];
  }

  lemma PermutationWithout(xs: seq<int>, ys: seq<int>, i: nat)
    requires multiset(xs) == multiset(ys) && xs != [] && i < |ys| && ys[i] == xs[|xs| - 1]
    ensures multiset(xs[..|xs| - 1]) == multiset(ys[..i] + ys[i + 1..])
  {
    var m := |xs| - 1;
    Removed(xs, m);
    assert xs[..m] + xs[m + 1..] == xs[..m];
    Removed(ys, i);
  }

  lemma {:induction false} SumOfPermutation(xs: seq<int>, ys: seq<int>)
    requires multiset(xs) == multiset(ys)
    ensures Sum(xs) == Sum(ys)
    decreases |xs|
  {
    if xs == [] {
      assert |multiset(ys)| == 0;
    } else {
      assert xs[|xs| - 1] in multiset(ys);
      var i :| 0 <= i < |ys| && ys[i] == xs[|xs| - 1];
      PermutationWithout(xs, ys, i);
      SumWithout(ys, i);
      SumOfPermutation(xs[..|xs| - 1], ys[..i] + ys[i + 1..]);
    }
  }

  /** No cancellation, and every payment is non-negative and processed by the end of the invoice. */
  ghost predicate OnTime(inv: Invoice, history: seq<Event>) {
    forall i :: 0 <= i < |history| ==>
      && !history[i].Cancel?
      && (history[i].Credit? ==> history[i].at <= inv.expireAt && history[i].payment.amount >= 0)
  }

  lemma {:induction false} TotalGrows(inv: Invoice, history: seq<Event>, m: nat, n: nat)
    requires OnTime(inv, history) && m <= n <= |history|
    ensures Total(history, m) <= Total(history, n)
    decreases n
  {
    if m < n {
      TotalGrows(inv, history, m, n - 1);
    }
  }

  /** The outcome of an uncancelled invoice paid on time is decided by the sum alone. */
  lemma SumDecides(inv: Invoice, start: int, history: seq<Event>)
    requires Fresh(inv, start) && Timed(history, start) && OnTime(inv, history)
    ensures var now := Replay(inv, history);
            var sum := Sum(Amounts(history));
            && (now.status == Paid <==> inv.amount <= sum)
            && now.overpayment == if inv.amount <= sum then sum - inv.amount else sum
  {
    StatusIsDeclarative(inv, start, history);
    TotalIsSum(history);
    var now := Replay(inv, history);
    if now.status == Paid {
      var i: nat :| FirstSettles(inv, history, i);
      TotalGrows(inv, history, i + 1, |history|);
    } else if inv.amount <= Total(history, |history|) {
      var i := SettlingPayment(inv, history, |history|);
      assert false;
    }
  }

  /** When the sum reaches the amount, a first payment made it do so. */
  lemma {:induction false} SettlingPayment(inv: Invoice, history: seq<Event>, n: nat) returns (i: nat)
    requires OnTime(inv, history) && n <= |history|
    requires 0 < inv.amount <= Total(history, n)
    ensures i < n && FirstSettles(inv, history, i)
    decreases n
  {
    if inv.amount <= Total(history, n - 1) {
      i := SettlingPayment(inv, history, n - 1);
    } else {
      i := n - 1;
      forall j: nat | j < i
        ensures !Settles(inv, history, j)
      {
        TotalGrows(inv, history, j + 1, i);
      }
    }
  }

  /** Without the sign condition the order matters: 5 and then -5 settles an invoice of 5, -5 and then 5 does not. */
  lemma NegativeAmountsDependOnOrder(inv: Invoice, p: Payment, start: int)
    requires Fresh(inv, start) && inv.amount == 5 && start <= inv.expireAt
    ensures var plus := Credit(p.(amount := 5), start);
            var minus := Credit(p.(amount := -5), start);
            Replay(inv, [plus, minus]).status == Paid && Replay(inv, [minus, plus]).status == Waiting
  {
    var plus := Credit(p.(amount := 5), start);
    var minus := Credit(p.(amount := -5), start);
    assert [plus, minus][..1] == [plus] && [minus, plus][..1] == [minus];
    assert Replay(inv, [plus]) == Step(Replay(inv, []), plus);
    assert Replay(inv, [minus]) == Step(Replay(inv, []), minus);
  }

  /** Two on-time histories with the same payments, in any order, end with the same status and overpayment. */
  lemma OrderDoesNotMatter(inv: Invoice, start: int, one: seq<Event>, other: seq<Event>)
    requires Fresh(inv, start)
    requires Timed(one, start) && OnTime(inv, one)
    requires Timed(other, start) && OnTime(inv, other)
    requires multiset(Amounts(one)) == multiset(Amounts(other))
    ensures (Replay(inv, one).status == Paid) == (Replay(inv, other).status == Paid)
    ensures Replay(inv, one).overpayment == Replay(inv, other).overpayment
  {
    SumDecides(inv, start, one);
    SumDecides(inv, start, other);
    SumOfPermutation(Amounts(one), Amounts(other));
  }
}
