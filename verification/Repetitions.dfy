/** Executions in which a transaction is booked more than once. */
module Repetitions {
  import opened Wrappers
  import opened Chain
  import opened Payments
  import opened Invoices
  import opened Ledger
  import opened LedgerRuns
  import opened SyncSteps
  import opened Pipeline
  import opened Retries

  lemma Extended(states: seq<State>, steps: seq<Step>, next: State, step: Step)
    returns (states': seq<State>, steps': seq<Step>)
    requires Execution(states, steps) && Next(states[|steps|], next, step)
    ensures states' == states + [next] && steps' == steps + [step] && Execution(states', steps')
  {
    states', steps' := states + [next], steps + [step];
    forall i | 0 <= i < |steps'|
      ensures StepAt(states', steps', i)
    {
      if i < |steps| {
        assert StepAt(states, steps, i);
      }
    }
  }

  /** The commit of the next child, which is stored, with any outcome that is possible. */
  lemma CommitPossible(s: State, a: Address, saving: Saving) returns (s': State)
    requires a in s.workers && a in s.chains && s.workers[a].account.id == a
    requires Ready(s.workers[a], s.chains[a])
    requires saving != RolledBack
    requires saving == Unnotified ==> Due(s.books, NextPayments(s.workers[a], s.chains[a]), s.clock) != []
    ensures Commit(s, s', a, saving) && s'.chains == s.chains && s'.clock == s.clock
    ensures s'.books == BookedAll(s.books, NextPayments(s.workers[a], s.chains[a]), s.clock)
    ensures s'.workers == s.workers[a := Advanced(s.workers[a], saving)]
    ensures SettledBy(s'.log, a) ==
            SettledBy(s.log, a) + [Settle(s.workers[a].account, s.chains[a][s.workers[a].cursor])]
  {
    var w := s.workers[a];
    var action := Settle(w.account, s.chains[a][w.cursor]);
    SettledNext(s.log, Entry(s.clock, action), a);
    s' := Logged(s, action).(workers := s.workers[a := Advanced(w, saving)]);
  }

  /**
    Whenever a commit completes an invoice, its notification can fail, and then the next pass commits
    the same transaction again: all its payments are booked a second time.
  */
  lemma FailedNotificationRepeats(s: State, a: Address) returns (s1: State, s2: State)
    requires a in s.workers && a in s.chains && s.workers[a].account.id == a
    requires Ready(s.workers[a], s.chains[a])
    requires Due(s.books, NextPayments(s.workers[a], s.chains[a]), s.clock) != []
    ensures Commit(s, s1, a, Unnotified) && Commit(s1, s2, a, Saved) && Lags(s1, a)
    ensures var payments := NextPayments(s.workers[a], s.chains[a]);
            s2.books == BookedAll(BookedAll(s.books, payments, s.clock), payments, s.clock)
    ensures var action := Settle(s.workers[a].account, s.chains[a][s.workers[a].cursor]);
            SettledBy(s2.log, a) == SettledBy(s.log, a) + [action] + [action]
    ensures s2.chains == s.chains
  {
    s1 := CommitPossible(s, a, Unnotified);
    s2 := CommitPossible(s1, a, Saved);
  }

  /** The answers to `n` commits in a row can get lost: without their arrival there is no bound on the repetitions. */
  lemma {:induction false} LostAnswersRepeat(states: seq<State>, steps: seq<Step>, a: Address, n: nat)
    returns (states': seq<State>, steps': seq<Step>)
    requires Execution(states, steps)
    requires a in states[|steps|].workers && a in states[|steps|].chains
    requires var w := states[|steps|].workers[a];
             w.cursor == w.processed && Ready(w, states[|steps|].chains[a])
    ensures Execution(states', steps') && |steps'| == |steps| + n
    ensures var s, s' := states[|steps|], states'[|steps'|];
            var action := Settle(s.workers[a].account, s.chains[a][s.workers[a].cursor]);
            && s'.chains == s.chains
            && a in s'.workers && Ready(s'.workers[a], s.chains[a])
            && s'.workers[a].account == s.workers[a].account && s'.workers[a].cursor == s.workers[a].cursor
            && multiset(SettledBy(s'.log, a))[action] == n
  {
    var s := states[|steps|];
    ExecutionKeepsInvariant(states, steps, |steps|);
    assert AccountOk(s, a);
    if n == 0 {
      NotSettledYet(s.workers[a], s.chains[a], SettledBy(s.log, a));
      states', steps' := states, steps;
    } else {
      states', steps' := LostAnswersRepeat(states, steps, a, n - 1);
      ExecutionKeepsInvariant(states', steps', |steps'|);
      assert AccountOk(states'[|steps'|], a);
      var next := CommitPossible(states'[|steps'|], a, Lost);
      states', steps' := Extended(states', steps', next, CommitStep(a, Lost));
    }
  }

  // A concrete execution: one transfer of 5 pays an invoice of 5 and is then booked again as overpayment

  const MERCHANT: Account := Account(0, AccountInfo(0, 0, None))
  const TRANSFER: Tx := Tx(0, 7, 0, Foreign(0), true, Message(Int, 9, None, 5, [], Transfer(ForInvoice(1))), [])
  const REQUEST: NewInvoice := NewInvoice(Some(5), Some(Ton), 60, "", "shop", 0, "")

  const PREPARED: seq<Entry> := [Entry(0, Track({Ton})), Entry(0, Create(1, REQUEST, 0))]

  /** The tables after the currency and the invoice have been saved at time 0. */
  lemma PreparedLedger()
    ensures Run(PREPARED[..1]).invoices == map[]
    ensures ConvertNewInvoice(REQUEST, 0, 0).Ok?
    ensures Run(PREPARED).currencies == {Ton}
    ensures Run(PREPARED).invoices == map[1 := ConvertNewInvoice(REQUEST, 0, 0).value]
    ensures SettledBy(PREPARED, 0) == []
  {
    var log := PREPARED;
    assert log[..1] == [log[0]] && [log[0]][..0] == [];
    assert Run([log[0]]) == Apply(Run([]), log[0]);
    assert Run(log) == Apply(Run([log[0]]), log[1]);
    assert SettledBy([log[0]], 0) == SettledBy([], 0);
  }

  /** Booking the transfer once pays the invoice; booking it twice leaves 5 too much. */
  lemma TransferBooked(b: Books)
    requires b.currencies == {Ton} && 1 in b.invoices && b.invoices[1] == ConvertNewInvoice(REQUEST, 0, 0).value
    ensures var payments := PaymentsOf(TRANSFER, MERCHANT);
            var once := BookedAll(b, payments, 0);
            var twice := BookedAll(once, payments, 0);
            && Due(b, payments, 0) != []
            && once.invoices.Keys == b.invoices.Keys
            && once.invoices[1].status == Paid && once.invoices[1].overpayment == 0
            && 1 in twice.invoices && twice.invoices[1].status == Paid
            && twice.invoices[1].amount == twice.invoices[1].overpayment == 5
  {
    var p := Payment(1, Ton, 5, 9, 0, Digest(TRANSFER));
    assert ToInt64(5) == 5;
    assert [p] + ExtraPayments(TRANSFER, MERCHANT, 1, []) == [p];
    assert PaymentsOf(TRANSFER, MERCHANT) == [p];
    assert [p][..0] == [];
    assert BookedAll(b, [p], 0) == Booked(b, p, 0);
    var once := Booked(b, p, 0);
    assert BookedAll(once, [p], 0) == Booked(once, p, 0);
    assert Due(b, [p], 0) == Due(b, [], 0) + [Notification(1, 0)];
  }

  /** The account is tracked, and the currency and the invoice are saved. */
  lemma PreparedState() returns (states: seq<State>, steps: seq<Step>)
    ensures Execution(states, steps)
    ensures states[|steps|] ==
            State(map[0 := [TRANSFER]], map[0 := Worker(MERCHANT, 0, {}, 0, Starting, 0)], Run(PREPARED), PREPARED, 0)
  {
    assert Linked([TRANSFER], 0, 0);
    var s0 := State(map[0 := [TRANSFER]], map[], EMPTY, [], 0);
    var s1 := s0.(workers := map[0 := Worker(MERCHANT, 0, {}, 0, Starting, 0)]);
    assert AddAccount(s0, s1, MERCHANT, 0);
    states, steps := Extended([s0], [], s1, AddStep(MERCHANT, 0));
    states, steps := Operated(states, steps, Track({Ton}));
    states, steps := Operated(states, steps, Create(1, REQUEST, 0));
    assert states[|steps|].log == PREPARED;
  }

  /** An execution may always go on with an operation of the API. */
  lemma Operated(states: seq<State>, steps: seq<Step>, action: Action) returns (states': seq<State>, steps': seq<Step>)
    requires Execution(states, steps) && !action.Settle?
    requires states[|steps|].books == Run(states[|steps|].log)
    ensures Execution(states', steps') && |steps'| == |steps| + 1
    ensures var s, s' := states[|steps|], states'[|steps'|];
            s' == s.(log := s.log + [Entry(s.clock, action)], books := Run(s.log + [Entry(s.clock, action)]))
  {
    var s := states[|steps|];
    assert (s.log + [Entry(s.clock, action)])[..|s.log|] == s.log;
    states', steps' := Extended(states, steps, Logged(s, action), OperateStep(action));
  }

  /** A fresh loader fetches the only transaction of its account. */
  lemma FetchOnly(states: seq<State>, steps: seq<Step>, account: Account)
    returns (states': seq<State>, steps': seq<Step>)
    requires Execution(states, steps)
    requires states[|steps|].workers == map[account.id := Worker(account, 0, {}, 0, Starting, 0)]
    requires account.id in states[|steps|].chains && |states[|steps|].chains[account.id]| == 1
    ensures Execution(states', steps')
    ensures states'[|steps'|] == states[|steps|].(workers :=
              map[account.id := Worker(account, 0, {0}, 0, Running([], 0, Some(Job(1, 0, 0))), 0)])
  {
    var a, s := account.id, states[|steps|];
    var w := s.workers[a];
    var idle := Running([], 0, None);
    var begun := Running([], 0, Some(Job(1, 1, 0)));
    var saved := Running([], 0, Some(Job(1, 0, 0)));
    assert Start(1, {}, Starting, {}, idle);
    states', steps' := Extended(states, steps, s.(workers := map[a := w.(loader := idle)]), LoadStep(a, {}, idle));
    assert Refresh(0, 1, {}, idle, {}, begun);
    states', steps' := Extended(states', steps', s.(workers := map[a := w.(loader := begun)]), LoadStep(a, {}, begun));
    assert Save({}, begun, {0}, saved);
    states', steps' := Extended(states', steps', s.(workers := map[a := w.(stored := {0}, loader := saved)]),
                                LoadStep(a, {0}, saved));
  }

  /** Exactly-once fails without its hypothesis: here is an execution that books one transfer twice. */
  lemma OneTransferBookedTwice() returns (states: seq<State>, steps: seq<Step>)
    ensures Execution(states, steps)
    ensures var s := states[|steps|];
            && s.chains == map[0 := [TRANSFER]]
            && SettledBy(s.log, 0) == [Settle(MERCHANT, TRANSFER), Settle(MERCHANT, TRANSFER)]
            && 1 in s.books.invoices && s.books.invoices[1].status == Paid
            && s.books.invoices[1].amount == s.books.invoices[1].overpayment == 5
  {
    states, steps := PreparedState();
    states, steps := FetchOnly(states, steps, MERCHANT);
    PreparedLedger();
    TransferBooked(states[|steps|].books);
    var s1, s2 := FailedNotificationRepeats(states[|steps|], 0);
    states, steps := Extended(states, steps, s1, CommitStep(0, Unnotified));
    states, steps := Extended(states, steps, s2, CommitStep(0, Saved));
  }
}
