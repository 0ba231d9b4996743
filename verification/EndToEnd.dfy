/** The main theorems about every execution of the service. */
module EndToEnd {
  import opened Chain
  import opened Transactions
  import opened Payments
  import opened Invoices
  import opened Ledger
  import opened LedgerRuns
  import opened SyncSteps
  import opened Pipeline
  import opened Retries

  // Exactly once

  /**
    The settlements of an account are exactly its chain transactions above start_tx_lt up to
    last_processed_lt, read with the account's own recipient and jetton, each once and in order, if
    and only if no error behind a commit was followed by another commit before a crash.
  */
  lemma ExactlyOnce(states: seq<State>, steps: seq<Step>, i: nat, a: Address)
    requires Execution(states, steps) && i < |states| && a in states[i].workers
    ensures var s, w := states[i], states[i].workers[a];
            && a in s.chains && w.start <= w.processed <= |s.chains[a]|
            && (SettledBy(s.log, a) == Settlements(w.account, s.chains[a], w.start, w.processed)
                <==> NeverRedone(steps, i, a))
  {
    CommitsOkAt(states, steps, i, a);
    CommitsCounted(states, steps, i, a);
    CollapseEnds(SettledBy(states[i].log, a));
    NeverRepeatsIsZero(states, steps, i, a);
    RepeatsAreRedone(states, steps, i, a);
  }

  /** A settlement in the log is one of an account. */
  lemma {:induction false} LoggedIsSettled(log: seq<Entry>, e: Entry)
    requires e in log && e.action.Settle?
    ensures e.action in SettledBy(log, e.action.account.id)
  {
    var n := |log| - 1;
    if log[n] != e {
      assert e in log[..n];
      LoggedIsSettled(log[..n], e);
    }
  }

  /** Nothing else is in the books: every settlement is one of a tracked account, with that account's own data. */
  lemma SettlementsAreOwn(s: State, e: Entry)
    requires Invariant(s) && e in s.log && e.action.Settle?
    ensures e.action.account.id in s.workers
    ensures e.action.account == s.workers[e.action.account.id].account
  {
    var a := e.action.account.id;
    assert AccountOk(s, a);
    LoggedIsSettled(s.log, e);
    CollapseMembers(SettledBy(s.log, a));
  }

  /**
    Whatever errors follow the commits, nothing is skipped, nothing foreign is booked and the order is
    kept: what was settled is the chain segment with immediate repetitions, as many as were redone.
  */
  lemma NothingSkipped(states: seq<State>, steps: seq<Step>, i: nat, a: Address, p: nat)
    requires Execution(states, steps) && i < |states| && a in states[i].workers
    ensures var s, w := states[i], states[i].workers[a];
            && a in s.chains && w.start <= w.processed <= |s.chains[a]|
            && Collapse(SettledBy(s.log, a)) == Settlements(w.account, s.chains[a], w.start, w.processed)
            && (w.start <= p < w.processed ==>
                  multiset(SettledBy(s.log, a))[Settle(w.account, s.chains[a][p])] ==
                  1 + RepeatsOf(states, steps, i, a, p))
  {
    CommitsOkAt(states, steps, i, a);
    if states[i].workers[a].start <= p < states[i].workers[a].processed {
      Multiplicity(states, steps, i, a, p);
    }
  }

  /** If no answer to a COMMIT is ever lost, no transaction is settled three times. */
  lemma NeverThreeTimes(states: seq<State>, steps: seq<Step>, i: nat, a: Address, action: Action)
    requires Execution(states, steps) && i < |states| && a in states[i].workers
    requires NoAnswerLost(steps, i)
    ensures multiset(SettledBy(states[i].log, a))[action] <= 2
  {
    var s, w := states[i], states[i].workers[a];
    CommitsOkAt(states, steps, i, a);
    CollapseMembers(SettledBy(s.log, a));
    if action in SettledBy(s.log, a) {
      var settled := Settlements(w.account, s.chains[a], w.start, w.processed);
      var n: nat :| n < |settled| && settled[n] == action;
      Multiplicity(states, steps, i, a, w.start + n);
      RepeatedOnce(states, steps, i, a, w.start + n);
    }
  }

  /** SavePayments failed only before its commit in this execution, or the process died. */
  ghost predicate FailsOnlyBeforeCommit(steps: seq<Step>) {
    forall i :: 0 <= i < |steps| && steps[i].CommitStep? ==> steps[i].saving == Saved
  }

  /** Under that hypothesis every account is settled exactly once, in order, whatever else happens. */
  lemma CleanRunsAreExact(states: seq<State>, steps: seq<Step>, i: nat, a: Address)
    requires Execution(states, steps) && FailsOnlyBeforeCommit(steps) && i < |states| && a in states[i].workers
    ensures var s, w := states[i], states[i].workers[a];
            && a in s.chains && w.start <= w.processed <= |s.chains[a]|
            && SettledBy(s.log, a) == Settlements(w.account, s.chains[a], w.start, w.processed)
  {
    ExactlyOnce(states, steps, i, a);
  }

  // Invoices and the chain

  /** Every invoice row is the one its own history prescribes, in every state of every execution. */
  lemma EveryInvoiceExplained(states: seq<State>, steps: seq<Step>, i: nat, id: InvoiceId)
    returns (c: nat, inv: Invoice)
    requires Execution(states, steps) && i < |states| && id in states[i].books.invoices
    ensures var s := states[i];
            && Origin(s.log, id, c, inv) && Fresh(inv, s.log[c].at)
            && Explained(inv, History(s.log, c, id, inv.currency, inv.recipient), s.books.invoices[id])
  {
    ExecutionKeepsInvariant(states, steps, i);
    c, inv := EveryRowExplained(states[i].log, id);
  }

  /** What the payments carry for an invoice with this currency and recipient. */
  ghost function Carried(payments: seq<Payment>, id: InvoiceId, currency: Currency, recipient: Address): int {
    if payments == [] then 0
    else
      var p := payments[|payments| - 1];
      Carried(payments[..|payments| - 1], id, currency, recipient)
      + if p.invoiceId == id && p.currency == currency && p.recipient == recipient then p.amount else 0
  }

  /** What the settlements carry for it. */
  ghost function CarriedBy(done: seq<Action>, id: InvoiceId, currency: Currency, recipient: Address): int {
    if done == [] then 0
    else
      var last := done[|done| - 1];
      CarriedBy(done[..|done| - 1], id, currency, recipient)
      + if last.Settle? then Carried(PaymentsOf(last.tx, last.account), id, currency, recipient) else 0
  }

  lemma {:induction false} TotalAppended(one: seq<Event>, other: seq<Event>)
    ensures Total(one + other, |one + other|) == Total(one, |one|) + Total(other, |other|)
    decreases |other|
  {
    var all := one + other;
    if other == [] {
      assert all == one;
    } else {
      var n := |other| - 1;
      assert all[..|all| - 1] == one + other[..n];
      TotalAppended(one, other[..n]);
      TotalOfPrefix(all, |all| - 1, |all| - 1);
      TotalOfPrefix(other, n, n);
    }
  }

  lemma {:induction false} CreditsTotal(
      payments: seq<Payment>, id: InvoiceId, currency: Currency, recipient: Address, at: int)
    ensures var credits := Credits(payments, id, currency, recipient, at);
            Total(credits, |credits|) == Carried(payments, id, currency, recipient)
    decreases |payments|
  {
    if payments != [] {
      var n := |payments| - 1;
      CreditsTotal(payments[..n], id, currency, recipient, at);
      var before := Credits(payments[..n], id, currency, recipient, at);
      var p := payments[n];
      if p.invoiceId == id && p.currency == currency && p.recipient == recipient {
        TotalAppended(before, [Credit(p, at)]);
        assert Total([Credit(p, at)], 1) == Total([Credit(p, at)], 0) + p.amount;
      } else {
        assert before + [] == before;
      }
    }
  }

  /** An account that does not serve an invoice carries nothing for it. */
  lemma {:induction false} OthersCarryNothing(
      payments: seq<Payment>, id: InvoiceId, currency: Currency, recipient: Address)
    requires forall p :: p in payments ==> p.currency != currency || p.recipient != recipient
    ensures Carried(payments, id, currency, recipient) == 0
    decreases |payments|
  {
    if payments != [] {
      OthersCarryNothing(payments[..|payments| - 1], id, currency, recipient);
    }
  }

  /** Among the settlements of the log, only those of `account` are for invoices of this currency and recipient. */
  ghost predicate OnlyServer(log: seq<Entry>, account: Account, currency: Currency, recipient: Address) {
    forall e :: e in log && e.action.Settle? && e.action.account != account ==>
      e.action.account.id != account.id && !Serves(e.action.account, currency, recipient)
  }

  lemma OnlyServerOfParts(log: seq<Entry>, account: Account, currency: Currency, recipient: Address)
    requires log != [] && OnlyServer(log, account, currency, recipient)
    ensures OnlyServer(log[..|log| - 1], account, currency, recipient)
    ensures OnlyServer([log[|log| - 1]], account, currency, recipient)
  {
    assert log[|log| - 1] in log;
    assert forall e :: e in log[..|log| - 1] ==> e in log;
  }

  /** What a settlement of account `a` carries for the invoice; nothing, if it is none. */
  ghost function Contribution(
      action: Action, a: Address, id: InvoiceId, currency: Currency, recipient: Address): int
  {
    if Concerns(action, a) then Carried(PaymentsOf(action.tx, action.account), id, currency, recipient) else 0
  }

  /** What one entry adds to the payments of an invoice. */
  lemma EntryTotal(entry: Entry, account: Account, id: InvoiceId, currency: Currency, recipient: Address)
    requires OnlyServer([entry], account, currency, recipient)
    ensures var events := EventsOf(entry, id, currency, recipient);
            Total(events, |events|) == Contribution(entry.action, account.id, id, currency, recipient)
  {
    match entry.action
    case Settle(other, tx) =>
      assert entry in [entry];
      CreditsTotal(PaymentsOf(tx, other), id, currency, recipient, entry.at);
      if other != account {
        PaymentsServed(tx, other);
        OthersCarryNothing(PaymentsOf(tx, other), id, currency, recipient);
      }
    case Revoke(_) =>
      assert Total([Cancel(entry.at)], 1) == Total([Cancel(entry.at)], 0);
    case MarkAll =>
      assert Total([Sweep(entry.at)], 1) == Total([Sweep(entry.at)], 0);
    case _ =>
  }

  lemma HistoryNext(
      log: seq<Entry>, c: nat, account: Account, id: InvoiceId, currency: Currency, recipient: Address)
    requires c + 1 < |log| && OnlyServer([log[|log| - 1]], account, currency, recipient)
    ensures var before := History(log[..|log| - 1], c, id, currency, recipient);
            var history := History(log, c, id, currency, recipient);
            Total(history, |history|) ==
            Total(before, |before|) + Contribution(log[|log| - 1].action, account.id, id, currency, recipient)
  {
    var n := |log| - 1;
    EntryTotal(log[n], account, id, currency, recipient);
    TotalAppended(History(log[..n], c, id, currency, recipient), EventsOf(log[n], id, currency, recipient));
  }

  /** What the account has settled after the settlements `before`. */
  ghost function Later(log: seq<Entry>, a: Address, before: seq<Action>): seq<Action>
    requires before <= SettledBy(log, a)
  {
    SettledBy(log, a)[|before|..]
  }

  lemma LaterNext(log: seq<Entry>, a: Address, before: seq<Action>,
                  id: InvoiceId, currency: Currency, recipient: Address)
    requires log != [] && before <= SettledBy(log[..|log| - 1], a)
    ensures before <= SettledBy(log, a)
    ensures CarriedBy(Later(log, a, before), id, currency, recipient) ==
            CarriedBy(Later(log[..|log| - 1], a, before), id, currency, recipient)
            + Contribution(log[|log| - 1].action, a, id, currency, recipient)
  {
    var last, later := log[|log| - 1].action, Later(log[..|log| - 1], a, before);
    if Concerns(last, a) {
      assert Later(log, a, before) == later + [last];
      assert (later + [last])[..|later|] == later;
    }
  }

  /** The payments in the history of an invoice are those carried by the later settlements of its one server. */
  lemma {:induction false} HistoryTotal(
      log: seq<Entry>, c: nat, before: seq<Action>,
      account: Account, id: InvoiceId, currency: Currency, recipient: Address)
    requires c < |log| && OnlyServer(log, account, currency, recipient)
    requires before == SettledBy(log[..c + 1], account.id)
    ensures before <= SettledBy(log, account.id)
    ensures var history := History(log, c, id, currency, recipient);
            Total(history, |history|) == CarriedBy(Later(log, account.id, before), id, currency, recipient)
    decreases |log|
  {
    var n := |log| - 1;
    if n == c {
      assert log[..c + 1] == log;
    } else {
      assert log[..n][..c + 1] == log[..c + 1];
      OnlyServerOfParts(log, account, currency, recipient);
      HistoryTotal(log[..n], c, before, account, id, currency, recipient);
      HistoryNext(log, c, account, id, currency, recipient);
      LaterNext(log, account.id, before, id, currency, recipient);
    }
  }

  ghost function TrackedAccounts(s: State): map<Address, Account> {
    map a | a in s.workers :: s.workers[a].account
  }

  /** With disjoint accounts, an invoice is credited from one of them only. */
  lemma OneServer(s: State, a: Address, currency: Currency, recipient: Address)
    requires Invariant(s) && a in s.workers && Serves(s.workers[a].account, currency, recipient)
    requires Disjoint(TrackedAccounts(s))
    ensures OnlyServer(s.log, s.workers[a].account, currency, recipient)
  {
    assert AccountOk(s, a);
    assert Serves(TrackedAccounts(s)[a], currency, recipient);
    forall e | e in s.log && e.action.Settle? && e.action.account != s.workers[a].account
      ensures e.action.account.id != a && !Serves(e.action.account, currency, recipient)
    {
      SettlementsAreOwn(s, e);
      assert TrackedAccounts(s)[e.action.account.id] == e.action.account;
    }
  }

  /**
    Conservation from the chain to the invoice: what an invoice has received is exactly what the
    transactions of its account carry for it, from the one settled next after its creation (at
    position `p`) up to last_processed_lt. Crashes, holes, batches and other accounts leave no trace.
  */
  lemma ReceivedIsOnChain(states: seq<State>, steps: seq<Step>, i: nat, id: InvoiceId, a: Address)
    returns (c: nat, inv: Invoice, p: nat)
    requires Execution(states, steps) && i < |states| && id in states[i].books.invoices && a in states[i].workers
    requires Disjoint(TrackedAccounts(states[i]))
    requires var row := states[i].books.invoices[id];
             Serves(states[i].workers[a].account, row.currency, row.recipient)
    requires NeverRedone(steps, i, a)
    ensures var s, w := states[i], states[i].workers[a];
            && Origin(s.log, id, c, inv)
            && a in s.chains && w.start <= p <= w.processed <= |s.chains[a]|
            && SettledBy(s.log[..c + 1], a) == Settlements(w.account, s.chains[a], w.start, p)
            && Received(s.books.invoices[id]) ==
               CarriedBy(Settlements(w.account, s.chains[a], p, w.processed), id, inv.currency, inv.recipient)
  {
    var s, w := states[i], states[i].workers[a];
    c, inv := EveryInvoiceExplained(states, steps, i, id);
    ExecutionKeepsInvariant(states, steps, i);
    ReceivedLater(s, id, a, c, inv);
    ExactlyOnce(states, steps, i, a);
    p := w.start + |SettledBy(s.log[..c + 1], a)|;
    SettlementsSplit(w.account, s.chains[a], w.start, p, w.processed);
  }

  /** What an invoice has received was carried by the settlements of its account that came after its creation. */
  lemma ReceivedLater(s: State, id: InvoiceId, a: Address, c: nat, inv: Invoice)
    requires Invariant(s) && a in s.workers && Disjoint(TrackedAccounts(s))
    requires Origin(s.log, id, c, inv) && id in s.books.invoices
    requires Serves(s.workers[a].account, inv.currency, inv.recipient)
    requires Explained(inv, History(s.log, c, id, inv.currency, inv.recipient), s.books.invoices[id])
    ensures SettledBy(s.log[..c + 1], a) <= SettledBy(s.log, a)
    ensures Received(s.books.invoices[id]) ==
            CarriedBy(Later(s.log, a, SettledBy(s.log[..c + 1], a)), id, inv.currency, inv.recipient)
  {
    assert AccountOk(s, a);
    OneServer(s, a, inv.currency, inv.recipient);
    HistoryTotal(s.log, c, SettledBy(s.log[..c + 1], a), s.workers[a].account, id, inv.currency, inv.recipient);
  }

  lemma SettlementsSplit(account: Account, chain: seq<Tx>, from: nat, mid: nat, to: nat)
    requires from <= mid <= to <= |chain|
    ensures Settlements(account, chain, from, to)[..mid - from] == Settlements(account, chain, from, mid)
    ensures Settlements(account, chain, from, to)[mid - from..] == Settlements(account, chain, mid, to)
  {
  }

  // Holes and idle states

  /** In every state the stored history has at most one hole, and the cursors stay below it. */
  lemma NeverPastTheHole(states: seq<State>, steps: seq<Step>, i: nat, a: Address) returns (e: nat, s: nat, h: nat)
    requires Execution(states, steps) && i < |states| && a in states[i].workers
    ensures a in states[i].chains && h <= |states[i].chains[a]|
    ensures var w := states[i].workers[a];
            && Shape(w.stored, w.start, e, s, h)
            && w.start <= w.cursor <= w.processed <= e
  {
    ExecutionKeepsInvariant(states, steps, i);
    assert AccountOk(states[i], a);
    var w := states[i].workers[a];
    e, s, h :| InStep(w.start, |states[i].chains[a]|, w.stored, w.loader, e, s, h);
    if e == s {
      e, s := h, h;
    }
    assert e < s ==> e !in w.stored;
    assert w.start < w.processed ==> w.processed - 1 in w.stored;
  }

  /** Nothing is left to do when the loader has reached the head and the indexer finds no child. */
  lemma IdleMeansDone(states: seq<State>, steps: seq<Step>, i: nat, a: Address)
    requires Execution(states, steps) && i < |states| && a in states[i].workers && a in states[i].chains
    requires var w := states[i].workers[a];
             && Free(w.loader) && w.loader.queue == [] && w.loader.last == |states[i].chains[a]|
             && w.cursor !in w.stored
    ensures states[i].workers[a].processed == |states[i].chains[a]|
  {
    ExecutionKeepsInvariant(states, steps, i);
    assert AccountOk(states[i], a);
    var w := states[i].workers[a];
    RefreshingIsContiguous(w.start, |states[i].chains[a]|, w.stored, w.loader);
  }
}
