/**
  Which transactions the indexer commits more than once, and how often: SavePayments can report an
  error although it has committed, and then the pass is repeated (pkg/indexer/indexer.go).
*/
module Retries {
  import opened Chain
  import opened Payments
  import opened Invoices
  import opened Ledger
  import opened LedgerRuns
  import opened Pipeline

  /** Step `j` commits a transaction of account `a`. */
  ghost predicate CommitsAt(steps: seq<Step>, j: nat, a: Address) {
    j < |steps| && steps[j].CommitStep? && steps[j].a == a
  }

  /** The indexer's own cursor is behind the stored one. */
  ghost predicate Lags(s: State, a: Address) {
    a in s.workers && s.workers[a].cursor < s.workers[a].processed
  }

  /** Step `j` commits the transaction that was committed last once more. */
  ghost predicate RepeatsAt(states: seq<State>, steps: seq<Step>, j: nat, a: Address)
    requires |states| == |steps| + 1
  {
    CommitsAt(steps, j, a) && Lags(states[j], a)
  }

  ghost predicate NeverRepeats(states: seq<State>, steps: seq<Step>, i: nat, a: Address)
    requires |states| == |steps| + 1
  {
    forall j: nat :: j < i ==> !RepeatsAt(states, steps, j, a)
  }

  /** Step `j` reports an error behind its commit, and the process gets to commit for `a` again in step `k`. */
  ghost predicate Redone(steps: seq<Step>, j: nat, k: nat, a: Address) {
    && j < k
    && CommitsAt(steps, j, a) && steps[j].saving != Saved
    && CommitsAt(steps, k, a)
    && forall m :: j < m < k ==> !steps[m].CrashStep?
  }

  ghost predicate NeverRedone(steps: seq<Step>, i: nat, a: Address) {
    forall j: nat, k: nat :: k < i ==> !Redone(steps, j, k, a)
  }

  /** How often the first `i` steps committed a transaction of `a` once more. */
  ghost function Repeats(states: seq<State>, steps: seq<Step>, i: nat, a: Address): nat
    requires |states| == |steps| + 1
  {
    if i == 0 then 0
    else Repeats(states, steps, i - 1, a) + if RepeatsAt(states, steps, i - 1, a) then 1 else 0
  }

  /** How often they did so with transaction `p`. */
  ghost function RepeatsOf(states: seq<State>, steps: seq<Step>, i: nat, a: Address, p: nat): nat
    requires |states| == |steps| + 1
  {
    if i == 0 then 0
    else
      RepeatsOf(states, steps, i - 1, a, p)
      + if RepeatsAt(states, steps, i - 1, a) && states[i - 1].workers[a].cursor == p then 1 else 0
  }

  // One step, as one account sees it

  /** `s'` is what a commit for `a` leaves of this account. */
  ghost predicate Committed(s: State, s': State, a: Address, saving: Saving)
    requires a in s.workers && a in s.chains && a in s'.workers && a in s'.chains
  {
    var w := s.workers[a];
    && Ready(w, s.chains[a]) && s'.chains[a] == s.chains[a]
    && s'.workers[a] == Advanced(w, saving)
    && SettledBy(s'.log, a) == SettledBy(s.log, a) + [Settle(w.account, s.chains[a][w.cursor])]
  }

  /** `s'` is what any other step leaves of it. */
  ghost predicate Undisturbed(s: State, s': State, a: Address, crash: bool)
    requires a in s.workers && a in s.chains && a in s'.workers && a in s'.chains
  {
    var w, w' := s.workers[a], s'.workers[a];
    && s.chains[a] <= s'.chains[a]
    && w'.account == w.account && w'.start == w.start && w'.processed == w.processed
    && w'.cursor == (if crash then w.processed else w.cursor)
    && SettledBy(s'.log, a) == SettledBy(s.log, a)
  }

  lemma CommitSeen(s: State, s': State, a: Address, saving: Saving, b: Address)
    requires Invariant(s) && Commit(s, s', a, saving) && b in s.workers
    ensures b in s.chains && b in s'.workers && b in s'.chains
    ensures if b == a then Committed(s, s', a, saving) else Undisturbed(s, s', b, false)
  {
    assert AccountOk(s, a) && AccountOk(s, b);
    SettledNext(s.log, Entry(s.clock, Settle(s.workers[a].account, s.chains[a][s.workers[a].cursor])), b);
  }

  lemma StepSeen(s: State, s': State, step: Step, a: Address)
    requires Invariant(s) && Next(s, s', step) && a in s.workers
    ensures a in s.chains && a in s'.workers && a in s'.chains
    ensures if step.CommitStep? && step.a == a then Committed(s, s', a, step.saving)
            else Undisturbed(s, s', a, step.CrashStep?)
  {
    assert AccountOk(s, a);
    match step
    case CommitStep(b, saving) => CommitSeen(s, s', b, saving, a);
    case OperateStep(action) => SettledNext(s.log, Entry(s.clock, action), a);
    case _ =>
  }

  lemma CommitsOkAt(states: seq<State>, steps: seq<Step>, j: nat, a: Address)
    requires Execution(states, steps) && j < |states| && a in states[j].workers
    ensures a in states[j].chains && IsChain(states[j].chains[a], a) && states[j].workers[a].account.id == a
    ensures CommitsOk(states[j].workers[a], states[j].chains[a], SettledBy(states[j].log, a))
  {
    ExecutionKeepsInvariant(states, steps, j);
    assert AccountOk(states[j], a);
  }

  /** The same, for step `j` of an execution. */
  lemma StepSeenAt(states: seq<State>, steps: seq<Step>, j: nat, a: Address)
    requires Execution(states, steps) && j < |steps| && a in states[j].workers
    ensures var w := states[j].workers[a];
            w.start <= w.processed && (w.cursor == w.processed || w.start <= w.cursor == w.processed - 1)
    ensures var s, s' := states[j], states[j + 1];
            && a in s.chains && a in s'.workers && a in s'.chains
            && if CommitsAt(steps, j, a) then Committed(s, s', a, steps[j].saving)
               else Undisturbed(s, s', a, steps[j].CrashStep?)
  {
    CommitsOkAt(states, steps, j, a);
    ExecutionKeepsInvariant(states, steps, j);
    assert StepAt(states, steps, j);
    StepSeen(states[j], states[j + 1], steps[j], a);
  }

  /** An account that a step brings in has nothing committed, and is not behind. */
  lemma NewcomerAt(states: seq<State>, steps: seq<Step>, j: nat, a: Address)
    requires Execution(states, steps) && j < |steps| && a !in states[j].workers && a in states[j + 1].workers
    ensures var w := states[j + 1].workers[a];
            && w.cursor == w.processed == w.start && SettledBy(states[j + 1].log, a) == []
  {
    ExecutionKeepsInvariant(states, steps, j);
    assert AccountOk(states[j], a);
    assert StepAt(states, steps, j);
  }

  lemma {:induction false} AbsentBefore(states: seq<State>, steps: seq<Step>, i: nat, a: Address)
    requires Execution(states, steps) && i < |states| && a !in states[i].workers
    ensures forall j :: 0 <= j <= i ==> a !in states[j].workers
  {
    if i > 0 {
      if a in states[i - 1].workers {
        StepSeenAt(states, steps, i - 1, a);
      }
      AbsentBefore(states, steps, i - 1, a);
    }
  }

  // When the indexer's cursor is behind

  /** The cursor falls behind by an error after a commit; the next commit or a crash ends that. */
  lemma LagStep(states: seq<State>, steps: seq<Step>, j: nat, a: Address)
    requires Execution(states, steps) && j < |steps|
    ensures Lags(states[j + 1], a) <==>
              if CommitsAt(steps, j, a) then steps[j].saving != Saved
              else Lags(states[j], a) && !steps[j].CrashStep?
  {
    assert StepAt(states, steps, j);
    if a in states[j].workers {
      StepSeenAt(states, steps, j, a);
    } else if a in states[j + 1].workers {
      NewcomerAt(states, steps, j, a);
    }
  }

  /** The error that put the cursor behind. */
  lemma {:induction false} LagOrigin(states: seq<State>, steps: seq<Step>, k: nat, a: Address) returns (j: nat)
    requires Execution(states, steps) && k < |states| && Lags(states[k], a)
    ensures j < k && CommitsAt(steps, j, a) && steps[j].saving != Saved
    ensures forall m: nat :: j < m < k ==> !CommitsAt(steps, m, a) && !steps[m].CrashStep?
  {
    assert k > 0;
    j := k - 1;
    LagStep(states, steps, j, a);
    if !CommitsAt(steps, j, a) {
      j := LagOrigin(states, steps, k - 1, a);
    }
  }

  /** As long as the cursor is behind, the next commit for the account is a repetition. */
  lemma {:induction false} LagEndsInRepeat(states: seq<State>, steps: seq<Step>, m: nat, k: nat, a: Address)
    returns (r: nat)
    requires Execution(states, steps) && m <= k && CommitsAt(steps, k, a)
    requires Lags(states[m], a) && forall n :: m <= n < k ==> !steps[n].CrashStep?
    ensures m <= r <= k && RepeatsAt(states, steps, r, a)
    decreases k - m
  {
    if CommitsAt(steps, m, a) {
      r := m;
    } else {
      LagStep(states, steps, m, a);
      r := LagEndsInRepeat(states, steps, m + 1, k, a);
    }
  }

  /** A transaction is repeated exactly when an error behind a commit is followed by another commit before a crash. */
  lemma RepeatsAreRedone(states: seq<State>, steps: seq<Step>, i: nat, a: Address)
    requires Execution(states, steps) && i < |states|
    ensures NeverRepeats(states, steps, i, a) <==> NeverRedone(steps, i, a)
  {
    if k: nat :| k < i && RepeatsAt(states, steps, k, a) {
      var j := LagOrigin(states, steps, k, a);
      assert Redone(steps, j, k, a);
    }
    if j: nat, k: nat :| k < i && Redone(steps, j, k, a) {
      LagStep(states, steps, j, a);
      var r := LagEndsInRepeat(states, steps, j + 1, k, a);
      assert RepeatsAt(states, steps, r, a);
    }
  }

  // Counting

  lemma {:induction false} NeverRepeatsIsZero(states: seq<State>, steps: seq<Step>, i: nat, a: Address)
    requires |states| == |steps| + 1
    ensures NeverRepeats(states, steps, i, a) <==> Repeats(states, steps, i, a) == 0
  {
    if i > 0 {
      NeverRepeatsIsZero(states, steps, i - 1, a);
    }
  }

  /** Every commit beyond the length of the settled segment is one of the repetitions. */
  lemma {:induction false} CommitsCounted(states: seq<State>, steps: seq<Step>, i: nat, a: Address)
    requires Execution(states, steps) && i < |states| && a in states[i].workers
    ensures var w := states[i].workers[a];
            |SettledBy(states[i].log, a)| == w.processed - w.start + Repeats(states, steps, i, a)
  {
    if i > 0 {
      if a in states[i - 1].workers {
        CommitsCounted(states, steps, i - 1, a);
        StepSeenAt(states, steps, i - 1, a);
      } else {
        NewcomerAt(states, steps, i - 1, a);
        AbsentBefore(states, steps, i - 1, a);
        NeverRepeatsIsZero(states, steps, i, a);
      }
    }
  }

  /** Neither cursor ever goes back. */
  lemma CursorsMove(states: seq<State>, steps: seq<Step>, j: nat, a: Address)
    requires Execution(states, steps) && j < |steps| && a in states[j].workers
    ensures a in states[j + 1].workers
    ensures states[j].workers[a].processed <= states[j + 1].workers[a].processed
    ensures states[j].workers[a].cursor <= states[j + 1].workers[a].cursor
  {
    StepSeenAt(states, steps, j, a);
  }

  /** A transaction is only repeated after it has been settled. */
  lemma {:induction false} RepeatsComeLater(states: seq<State>, steps: seq<Step>, i: nat, a: Address, p: nat)
    requires Execution(states, steps) && i < |states|
    requires a in states[i].workers ==> states[i].workers[a].processed <= p
    ensures RepeatsOf(states, steps, i, a, p) == 0
  {
    if i > 0 {
      if a in states[i - 1].workers {
        CursorsMove(states, steps, i - 1, a);
      }
      RepeatsComeLater(states, steps, i - 1, a, p);
    }
  }

  lemma {:induction false} CollapseMembers(done: seq<Action>)
    ensures forall action :: action in Collapse(done) <==> action in done
  {
    if |done| > 1 {
      CollapseMembers(done[..|done| - 1]);
    }
  }

  /** What is about to be committed first has not been committed before. */
  lemma NotSettledYet(w: Worker, chain: seq<Tx>, done: seq<Action>)
    requires CommitsOk(w, chain, done) && IsChain(chain, w.account.id) && w.processed < |chain|
    ensures Settle(w.account, chain[w.processed]) !in done
  {
    CollapseMembers(done);
    SettlementIsNew(w.account, chain, w.start, w.processed);
  }

  /** Each settled transaction was committed once, and once more for each of its repetitions. */
  lemma {:induction false} Multiplicity(states: seq<State>, steps: seq<Step>, i: nat, a: Address, p: nat)
    requires Execution(states, steps) && i < |states| && a in states[i].workers
    requires states[i].workers[a].start <= p < states[i].workers[a].processed
    ensures a in states[i].chains && p < |states[i].chains[a]|
    ensures multiset(SettledBy(states[i].log, a))[Settle(states[i].workers[a].account, states[i].chains[a][p])]
            == 1 + RepeatsOf(states, steps, i, a, p)
  {
    if a !in states[i - 1].workers {
      NewcomerAt(states, steps, i - 1, a);
    } else {
      StepSeenAt(states, steps, i - 1, a);
      if p < states[i - 1].workers[a].processed {
        Multiplicity(states, steps, i - 1, a, p);
        SameSettlement(states, steps, i - 1, a, p);
      } else {
        RepeatsComeLater(states, steps, i - 1, a, p);
        CommitsOkAt(states, steps, i - 1, a);
        NotSettledYet(states[i - 1].workers[a], states[i - 1].chains[a], SettledBy(states[i - 1].log, a));
      }
    }
  }

  /** A commit behind the stored cursor repeats transaction `p` exactly if the cursor stands there. */
  lemma SameSettlement(states: seq<State>, steps: seq<Step>, j: nat, a: Address, p: nat)
    requires Execution(states, steps) && j < |steps| && a in states[j].workers
    requires p < states[j].workers[a].processed
    ensures a in states[j].chains
    ensures CommitsAt(steps, j, a) && p < |states[j].chains[a]| && Ready(states[j].workers[a], states[j].chains[a]) ==>
              (states[j].chains[a][p] == states[j].chains[a][states[j].workers[a].cursor]
               <==> RepeatsAt(states, steps, j, a) && states[j].workers[a].cursor == p)
  {
    CommitsOkAt(states, steps, j, a);
    var w, chain := states[j].workers[a], states[j].chains[a];
    if Ready(w, chain) {
      PositionsDistinct(chain, a, p, w.cursor);
    }
  }

  // At most twice, as long as no answer to a COMMIT is lost

  /** No commit among the first `i` steps was reported as failed for want of its answer. */
  ghost predicate NoAnswerLost(steps: seq<Step>, i: nat) {
    forall j :: 0 <= j < i && j < |steps| && steps[j].CommitStep? ==> steps[j].saving != Lost
  }

  /** Every invoice that the payments name is paid already, so that booking them again completes none. */
  ghost predicate AllPaid(b: Books, payments: seq<Payment>) {
    forall p :: p in payments ==> p.invoiceId in b.invoices && b.invoices[p.invoiceId].status == Paid
  }

  lemma PaidStaysPaid(log: seq<Entry>, entry: Entry, payments: seq<Payment>)
    requires AllPaid(Run(log), payments)
    ensures AllPaid(Run(log + [entry]), payments)
  {
    assert (log + [entry])[..|log|] == log;
    forall p | p in payments
      ensures p.invoiceId in Run(log + [entry]).invoices && Run(log + [entry]).invoices[p.invoiceId].status == Paid
    {
      FinishedRowsStay(log + [entry], |log|, p.invoiceId);
    }
  }

  /** Booking payments never unpays an invoice. */
  lemma {:induction false} BookingKeepsPaid(b: Books, payments: seq<Payment>, at: int, id: InvoiceId)
    requires id in b.invoices && b.invoices[id].status == Paid
    ensures id in BookedAll(b, payments, at).invoices && BookedAll(b, payments, at).invoices[id].status == Paid
    decreases |payments|
  {
    if payments != [] {
      BookingKeepsPaid(b, payments[..|payments| - 1], at, id);
    }
  }

  /** When payments that name one invoice leave a notification behind, that invoice is now paid. */
  lemma {:induction false} DueMeansPaid(b: Books, payments: seq<Payment>, at: int, id: InvoiceId)
    requires forall p :: p in payments ==> p.invoiceId == id
    requires Due(b, payments, at) != []
    ensures id in BookedAll(b, payments, at).invoices && BookedAll(b, payments, at).invoices[id].status == Paid
    decreases |payments|
  {
    var rest := payments[..|payments| - 1];
    var last := payments[|payments| - 1];
    assert last in payments;
    if !PaysNow(BookedAll(b, rest, at), last, at) {
      DueMeansPaid(b, rest, at, id);
      BookingKeepsPaid(BookedAll(b, rest, at), [last], at, id);
    }
  }

  /** When all named invoices are paid already, no notification becomes due. */
  lemma {:induction false} PaidMeansNothingDue(b: Books, payments: seq<Payment>, at: int)
    requires AllPaid(b, payments)
    ensures Due(b, payments, at) == []
    decreases |payments|
  {
    if payments != [] {
      var rest := payments[..|payments| - 1];
      var last := payments[|payments| - 1];
      assert forall p :: p in rest ==> p in payments;
      PaidMeansNothingDue(b, rest, at);
      assert last in payments;
      BookingKeepsPaid(b, rest, at, last.invoiceId);
    }
  }

  /** After a commit that left a notification behind, the invoice named by its payments is paid. */
  lemma UnnotifiedIsPaid(s: State, s': State, a: Address)
    requires Commit(s, s', a, Unnotified)
    ensures AllPaid(s'.books, NextPayments(s.workers[a], s.chains[a]))
  {
    var w, tx := s.workers[a], s.chains[a][s.workers[a].cursor];
    var payments := PaymentsOf(tx, w.account);
    PaymentsServed(tx, w.account);
    DueMeansPaid(s.books, payments, s.clock, payments[0].invoiceId);
  }

  /** What is paid stays paid over one step. */
  lemma StepKeepsPaid(s: State, s': State, step: Step, payments: seq<Payment>)
    requires Invariant(s) && Next(s, s', step) && AllPaid(s.books, payments)
    ensures AllPaid(s'.books, payments)
  {
    NextKeepsInvariant(s, s', step);
    if step.OperateStep? || step.CommitStep? {
      PaidStaysPaid(s.log, s'.log[|s.log|], payments);
    }
  }

  /** While the cursor is behind, the transaction there has paid its invoice: committing it again completes nothing. */
  lemma {:induction false} LaggingIsPaid(states: seq<State>, steps: seq<Step>, i: nat, a: Address)
    requires Execution(states, steps) && i < |states| && NoAnswerLost(steps, i) && Lags(states[i], a)
    ensures a in states[i].chains && states[i].workers[a].cursor < |states[i].chains[a]|
    ensures AllPaid(states[i].books, NextPayments(states[i].workers[a], states[i].chains[a]))
  {
    ExecutionKeepsInvariant(states, steps, i);
    assert AccountOk(states[i], a);
    assert i > 0;
    var j := i - 1;
    LagStep(states, steps, j, a);
    assert StepAt(states, steps, j);
    if CommitsAt(steps, j, a) {
      UnnotifiedIsPaid(states[j], states[j + 1], a);
    } else {
      LaggingIsPaid(states, steps, j, a);
      ExecutionKeepsInvariant(states, steps, j);
      StepSeenAt(states, steps, j, a);
      StepKeepsPaid(states[j], states[j + 1], steps[j], NextPayments(states[j].workers[a], states[j].chains[a]));
    }
  }

  /** So a repetition always gets through, and the cursor moves on. */
  lemma RepeatsGetThrough(states: seq<State>, steps: seq<Step>, j: nat, a: Address)
    requires Execution(states, steps) && RepeatsAt(states, steps, j, a) && NoAnswerLost(steps, j + 1)
    ensures steps[j].saving == Saved
  {
    LaggingIsPaid(states, steps, j, a);
    assert StepAt(states, steps, j);
    PaidMeansNothingDue(states[j].books, NextPayments(states[j].workers[a], states[j].chains[a]), states[j].clock);
  }

  /** Then no transaction is repeated more than once. */
  lemma {:induction false} RepeatedOnce(states: seq<State>, steps: seq<Step>, i: nat, a: Address, p: nat)
    requires Execution(states, steps) && i < |states| && NoAnswerLost(steps, i)
    ensures RepeatsOf(states, steps, i, a, p) <= 1
    ensures RepeatsOf(states, steps, i, a, p) == 1 ==> a in states[i].workers && p < states[i].workers[a].cursor
  {
    if i > 0 {
      RepeatedOnce(states, steps, i - 1, a, p);
      if a in states[i - 1].workers {
        CursorsMove(states, steps, i - 1, a);
      }
      if RepeatsAt(states, steps, i - 1, a) {
        RepeatsMoveOn(states, steps, i - 1, a);
      }
    }
  }

  lemma RepeatsMoveOn(states: seq<State>, steps: seq<Step>, j: nat, a: Address)
    requires Execution(states, steps) && RepeatsAt(states, steps, j, a) && NoAnswerLost(steps, j + 1)
    ensures a in states[j + 1].workers && states[j].workers[a].cursor < states[j + 1].workers[a].cursor
  {
    RepeatsGetThrough(states, steps, j, a);
    StepSeenAt(states, steps, j, a);
  }
}
