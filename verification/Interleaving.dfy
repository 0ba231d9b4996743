/**
  processPayment at the granularity of its statements (pkg/db/invoices.go): the row is read without
  a lock, and what is written later was computed from that reading. Workers of several accounts,
  cancellations and expiry sweeps run in between.
*/
module Interleaving {
  import opened Wrappers
  import opened Chain
  import opened Payments
  import opened Invoices

  /** A worker between its SELECT and its commit. */
  datatype Reading = Reading(payment: Payment, row: Invoice, readAt: int)

  /** `credited` is a history variable: the sum of the committed payments of each invoice. */
  datatype State = State(
    accounts: map<Address, Account>,
    invoices: map<InvoiceId, Invoice>,
    readings: map<Address, Reading>,
    credited: map<InvoiceId, int>,
    clock: int)

  /** The row after both UPDATE statements: only their columns change, to values computed from the reading. */
  function Overwritten(current: Invoice, reading: Reading): Invoice {
    var computed := Credited(reading.row, reading.payment, reading.readAt);
    var booked := current.(overpayment := computed.overpayment, updatedAt := reading.readAt);
    if reading.row.status == Waiting && computed.status == Paid then
      booked.(status := Paid, paidBy := computed.paidBy, paidAt := computed.paidAt, txHash := computed.txHash)
    else booked
  }

  // Steps

  ghost predicate Init(s: State) {
    Disjoint(s.accounts) && s.invoices == map[] && s.readings == map[] && s.credited == map[]
  }

  ghost predicate Create(s: State, s': State, id: InvoiceId, inv: Invoice) {
    && id !in s.invoices && Fresh(inv, s.clock)
    && s' == s.(invoices := s.invoices[id := inv], credited := s.credited[id := 0])
  }

  /** The time was taken just before the SELECT. */
  ghost predicate Read(s: State, s': State, a: Address, p: Payment, now: int) {
    && a in s.accounts && a !in s.readings
    && Serves(s.accounts[a], p.currency, p.recipient)
    && p.invoiceId in s.invoices
    && s.invoices[p.invoiceId].currency == p.currency && s.invoices[p.invoiceId].recipient == p.recipient
    && now <= s.clock
    && s' == s.(readings := s.readings[a := Reading(p, s.invoices[p.invoiceId], now)])
  }

  /** The updates and the commit: the row stays locked between them. */
  ghost predicate Write(s: State, s': State, a: Address) {
    && a in s.readings
    && var reading := s.readings[a];
       var id := reading.payment.invoiceId;
       && id in s.invoices && id in s.credited
       && s' == s.(invoices := s.invoices[id := Overwritten(s.invoices[id], reading)],
                   readings := s.readings - {a},
                   credited := s.credited[id := s.credited[id] + reading.payment.amount])
  }

  /** A rolled back transaction, or one of a process that died. */
  ghost predicate Abort(s: State, s': State, a: Address) {
    s' == s.(readings := s.readings - {a})
  }

  ghost predicate CancelOne(s: State, s': State, id: InvoiceId) {
    && id in s.invoices
    && s' == s.(invoices := s.invoices[id := CancelledAt(s.invoices[id], s.clock)])
  }

  ghost predicate SweepAll(s: State, s': State) {
    s' == s.(invoices := map id | id in s.invoices :: SweptAt(s.invoices[id], s.clock))
  }

  ghost predicate Tick(s: State, s': State) {
    s' == s.(clock := s'.clock) && s.clock <= s'.clock
  }

  datatype Step =
    | CreateStep(id: InvoiceId, inv: Invoice)
    | ReadStep(a: Address, payment: Payment, readAt: int)
    | WriteStep(a: Address)
    | AbortStep(a: Address)
    | CancelStep(id: InvoiceId)
    | SweepStep
    | TickStep

  ghost predicate Next(s: State, s': State, step: Step) {
    match step
    case CreateStep(id, inv) => Create(s, s', id, inv)
    case ReadStep(a, payment, readAt) => Read(s, s', a, payment, readAt)
    case WriteStep(a) => Write(s, s', a)
    case AbortStep(a) => Abort(s, s', a)
    case CancelStep(id) => CancelOne(s, s', id)
    case SweepStep => SweepAll(s, s')
    case TickStep => Tick(s, s')
  }

  ghost predicate StepAt(states: seq<State>, steps: seq<Step>, i: nat)
    requires |states| == |steps| + 1 && i < |steps|
  {
    Next(states[i], states[i + 1], steps[i])
  }

  ghost predicate Execution(states: seq<State>, steps: seq<Step>) {
    && |states| == |steps| + 1
    && Init(states[0])
    && forall i :: 0 <= i < |steps| ==> StepAt(states, steps, i)
  }

  // Conservation

  /** The row is still as it was read, up to a cancellation or expiry. */
  ghost predicate Current(row: Invoice, current: Invoice) {
    && (current.status == row.status || (row.status == Waiting && current.status in {Cancelled, Expired}))
    && current == row.(status := current.status, updatedAt := current.updatedAt)
  }

  ghost predicate ReadingOk(s: State, a: Address)
    requires a in s.readings
  {
    && a in s.accounts
    && var reading := s.readings[a];
       && reading.payment.invoiceId in s.invoices
       && Serves(s.accounts[a], reading.row.currency, reading.row.recipient)
       && Current(reading.row, s.invoices[reading.payment.invoiceId])
  }

  ghost predicate Invariant(s: State) {
    && Disjoint(s.accounts)
    && s.credited.Keys == s.invoices.Keys
    && (forall id :: id in s.invoices ==> Received(s.invoices[id]) == s.credited[id])
    && (forall a :: a in s.readings ==> ReadingOk(s, a))
  }

  /** Two workers never hold a reading of the same invoice. */
  lemma ReadingsOfDifferentInvoices(s: State, a: Address, b: Address)
    requires Invariant(s) && a in s.readings && b in s.readings && a != b
    ensures s.readings[a].payment.invoiceId != s.readings[b].payment.invoiceId
  {
    assert ReadingOk(s, a) && ReadingOk(s, b);
  }

  lemma WriteKeeps(s: State, s': State, a: Address)
    requires Invariant(s) && Write(s, s', a)
    ensures Invariant(s')
  {
    assert ReadingOk(s, a);
    forall b | b in s'.readings
      ensures ReadingOk(s', b)
    {
      assert ReadingOk(s, b);
      ReadingsOfDifferentInvoices(s, a, b);
    }
  }

  lemma CreateKeeps(s: State, s': State, id: InvoiceId, inv: Invoice)
    requires Invariant(s) && Create(s, s', id, inv)
    ensures Invariant(s')
  {
    forall b | b in s'.readings
      ensures ReadingOk(s', b)
    {
      assert ReadingOk(s, b);
    }
  }

  lemma ReadKeeps(s: State, s': State, a: Address, p: Payment, now: int)
    requires Invariant(s) && Read(s, s', a, p, now)
    ensures Invariant(s')
  {
    forall b | b in s'.readings
      ensures ReadingOk(s', b)
    {
      assert b != a ==> ReadingOk(s, b);
    }
  }

  /** A cancellation or a sweep, of some of the invoices. */
  lemma StatusChangeKeeps(s: State, s': State)
    requires Invariant(s)
    requires s' == s.(invoices := s'.invoices) && s'.invoices.Keys == s.invoices.Keys
    requires forall id :: id in s.invoices ==>
               || s'.invoices[id] == s.invoices[id]
               || s'.invoices[id] == CancelledAt(s.invoices[id], s.clock)
               || s'.invoices[id] == SweptAt(s.invoices[id], s.clock)
    ensures Invariant(s')
  {
    forall b | b in s'.readings
      ensures ReadingOk(s', b)
    {
      assert ReadingOk(s, b);
    }
  }

  lemma ForgetKeeps(s: State, s': State)
    requires Invariant(s) && s' == s.(readings := s'.readings, clock := s'.clock)
    requires forall b :: b in s'.readings ==> b in s.readings && s'.readings[b] == s.readings[b]
    ensures Invariant(s')
  {
    forall b | b in s'.readings
      ensures ReadingOk(s', b)
    {
      assert ReadingOk(s, b);
    }
  }

  lemma NextKeepsInvariant(s: State, s': State, step: Step)
    requires Invariant(s) && Next(s, s', step)
    ensures Invariant(s')
  {
    match step
    case CreateStep(id, inv) => CreateKeeps(s, s', id, inv);
    case ReadStep(a, payment, readAt) => ReadKeeps(s, s', a, payment, readAt);
    case WriteStep(a) => WriteKeeps(s, s', a);
    case AbortStep(_) => ForgetKeeps(s, s');
    case CancelStep(_) => StatusChangeKeeps(s, s');
    case SweepStep => StatusChangeKeeps(s, s');
    case TickStep => ForgetKeeps(s, s');
  }

  lemma {:induction false} ExecutionKeepsInvariant(states: seq<State>, steps: seq<Step>, i: nat)
    requires Execution(states, steps) && i < |states|
    ensures Invariant(states[i])
  {
    if i > 0 {
      ExecutionKeepsInvariant(states, steps, i - 1);
      assert StepAt(states, steps, i - 1);
      NextKeepsInvariant(states[i - 1], states[i], steps[i - 1]);
    }
  }

  /** No update is lost: every invoice has received exactly the payments committed for it. */
  lemma MoneyIsConserved(states: seq<State>, steps: seq<Step>, i: nat)
    requires Execution(states, steps) && i < |states|
    ensures forall id :: id in states[i].invoices ==>
              id in states[i].credited && Received(states[i].invoices[id]) == states[i].credited[id]
  {
    ExecutionKeepsInvariant(states, steps, i);
  }

  // Status

  /** The invoice was cancelled or expired behind the reading, and the reading is about to pay it. */
  ghost predicate Overtaken(current: Invoice, reading: Reading) {
    && reading.row.status == Waiting && current.status != Waiting
    && Credited(reading.row, reading.payment, reading.readAt).status == Paid
  }

  /**
    A write does what one atomic step on the row would do exactly when it was not overtaken, and it
    takes a finished invoice out of its status exactly when it was.
  */
  lemma WriteIsAtomicUnlessOvertaken(s: State, a: Address)
    requires Invariant(s) && a in s.readings
    ensures s.readings[a].payment.invoiceId in s.invoices
    ensures var reading := s.readings[a];
            var current := s.invoices[reading.payment.invoiceId];
            var next := Overwritten(current, reading);
            && (next == Credited(current, reading.payment, reading.readAt) <==> !Overtaken(current, reading))
            && (current.status != Waiting && next.status != current.status <==> Overtaken(current, reading))
  {
    assert ReadingOk(s, a);
  }

  /** From `earlier` to `later` status and receipt have stayed. */
  ghost predicate SameOutcome(earlier: Invoice, later: Invoice) {
    later == earlier.(overpayment := later.overpayment, updatedAt := later.updatedAt)
  }

  /** The step is an overtaken write on invoice `id`. */
  ghost predicate Overtakes(s: State, step: Step, id: InvoiceId) {
    && step.WriteStep? && step.a in s.readings
    && s.readings[step.a].payment.invoiceId == id
    && id in s.invoices && Overtaken(s.invoices[id], s.readings[step.a])
  }

  /** Only an overtaken write takes a finished invoice out of its status, and then into `Paid`. */
  lemma FinishedUnlessOvertaken(s: State, s': State, step: Step, id: InvoiceId)
    requires Invariant(s) && Next(s, s', step)
    requires id in s.invoices && s.invoices[id].status != Waiting
    ensures id in s'.invoices && s'.invoices[id].status != Waiting
    ensures SameOutcome(s.invoices[id], s'.invoices[id]) <==> !Overtakes(s, step, id)
    ensures Overtakes(s, step, id) ==> s.invoices[id].status != Paid == s'.invoices[id].status
  {
    if step.WriteStep? {
      assert ReadingOk(s, step.a);
    }
  }

  /** No step from state `m` to state `i` was an overtaken write on invoice `id`. */
  ghost predicate NeverOvertaken(states: seq<State>, steps: seq<Step>, m: nat, i: nat, id: InvoiceId)
    requires |states| == |steps| + 1 && i < |states|
  {
    forall j :: m <= j < i ==> !Overtakes(states[j], steps[j], id)
  }

  /** A paid invoice stays paid in every execution, and no reading of it can be overtaken. */
  lemma {:induction false} PaidIsFinal(states: seq<State>, steps: seq<Step>, m: nat, i: nat, id: InvoiceId)
    requires Execution(states, steps) && m <= i < |states|
    requires id in states[m].invoices && states[m].invoices[id].status == Paid
    ensures id in states[i].invoices && SameOutcome(states[m].invoices[id], states[i].invoices[id])
  {
    if m < i {
      PaidIsFinal(states, steps, m, i - 1, id);
      FinishedAt(states, steps, i - 1, id);
    }
  }

  /**
    The status diagram holds in an execution exactly as long as no overtaken write happens: a finished
    invoice keeps status and receipt from one state to any later one iff none came in between.
  */
  lemma {:induction false} FinishedIsFinalUnlessOvertaken(
      states: seq<State>, steps: seq<Step>, m: nat, i: nat, id: InvoiceId)
    requires Execution(states, steps) && m <= i < |states|
    requires id in states[m].invoices && states[m].invoices[id].status != Waiting
    ensures id in states[i].invoices && states[i].invoices[id].status != Waiting
    ensures SameOutcome(states[m].invoices[id], states[i].invoices[id]) <==> NeverOvertaken(states, steps, m, i, id)
  {
    if m < i {
      FinishedIsFinalUnlessOvertaken(states, steps, m, i - 1, id);
      FinishedAt(states, steps, i - 1, id);
      if !NeverOvertaken(states, steps, m, i, id) {
        var j :| m <= j < i && Overtakes(states[j], steps[j], id);
        OvertakingShows(states, steps, m, j, i, id);
      }
    }
  }

  /** `FinishedUnlessOvertaken` for step `j` of an execution. */
  lemma FinishedAt(states: seq<State>, steps: seq<Step>, j: nat, id: InvoiceId)
    requires Execution(states, steps) && j < |steps|
    requires id in states[j].invoices && states[j].invoices[id].status != Waiting
    ensures id in states[j + 1].invoices && states[j + 1].invoices[id].status != Waiting
    ensures SameOutcome(states[j].invoices[id], states[j + 1].invoices[id]) <==> !Overtakes(states[j], steps[j], id)
    ensures Overtakes(states[j], steps[j], id) ==>
              states[j].invoices[id].status != Paid == states[j + 1].invoices[id].status
  {
    ExecutionKeepsInvariant(states, steps, j);
    assert StepAt(states, steps, j);
    FinishedUnlessOvertaken(states[j], states[j + 1], steps[j], id);
  }

  /** An overtaken write leaves a payment on an invoice that had ended without one, for good. */
  lemma OvertakingShows(states: seq<State>, steps: seq<Step>, m: nat, j: nat, i: nat, id: InvoiceId)
    requires Execution(states, steps) && m <= j < i < |states|
    requires id in states[m].invoices && states[m].invoices[id].status != Waiting
    requires Overtakes(states[j], steps[j], id)
    ensures id in states[i].invoices && !SameOutcome(states[m].invoices[id], states[i].invoices[id])
  {
    FinishedAt(states, steps, j, id);
    PaidIsFinal(states, steps, j + 1, i, id);
    if states[m].invoices[id].status == Paid {
      PaidIsFinal(states, steps, m, j, id);
    }
  }

  /** The status diagram breaks: the merchant cancels between SELECT and UPDATE, and the invoice is paid. */
  lemma CancelledInvoiceIsPaid() returns (states: seq<State>, steps: seq<Step>)
    ensures Execution(states, steps) && |states| == 5
    ensures 1 in states[3].invoices && states[3].invoices[1].status == Cancelled
    ensures 1 in states[4].invoices && states[4].invoices[1].status == Paid
  {
    var account := Account(0, AccountInfo(0, 0, None));
    var inv := Invoice(0, Ton, 5, 0, 10, 0, "", "", Waiting, 0, None, None, None);
    var p := Payment(1, Ton, 5, 9, 0, Foreign(0));
    var s0 := State(map[0 := account], map[], map[], map[], 0);
    var s1 := s0.(invoices := map[1 := inv], credited := map[1 := 0]);
    var s2 := s1.(readings := map[0 := Reading(p, inv, 0)]);
    var s3 := s2.(invoices := map[1 := CancelledAt(inv, 0)]);
    var s4 := s3.(invoices := map[1 := Overwritten(CancelledAt(inv, 0), Reading(p, inv, 0))],
                  readings := map[], credited := map[1 := 5]);
    states := [s0, s1, s2, s3, s4];
    steps := [CreateStep(1, inv), ReadStep(0, p, 0), CancelStep(1), WriteStep(0)];
    assert Create(s0, s1, 1, inv);
    assert Read(s1, s2, 0, p, 0);
    assert CancelOne(s2, s3, 1);
    assert s3.readings - {0} == map[];
    assert Write(s3, s4, 0);
    forall i | 0 <= i < |steps|
      ensures StepAt(states, steps, i)
    {
      assert i == 0 || i == 1 || i == 2 || i == 3;
    }
  }
}
