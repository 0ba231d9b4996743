/** An execution in which the payment of an invoice is never announced. */
module MissedStatus {
  import opened Wrappers
  import opened Invoices
  import opened Ledger
  import opened LedgerRuns
  import opened NotificationRuns
  import opened Repetitions

  lemma Continued(states: seq<State>, steps: seq<Step>, next: State, step: Step)
    returns (states': seq<State>, steps': seq<Step>)
    requires Execution(states, steps) && Next(states[|steps|], next, step)
    ensures states' == states + [next] && steps' == steps + [step] && Execution(states', steps')
  {
    states', steps' := states + [next], steps + [step];
    forall i | 0 <= i < |steps'|
      ensures StepAt(states', steps', i)
    {
      if i < |steps| {
        assert StepAt(states, steps, i);
      }
    }
  }

  /** An operation follows, with its rows still to be queued. */
  lemma OperationFollows(states: seq<State>, steps: seq<Step>, entry: Entry)
    returns (states': seq<State>, steps': seq<Step>)
    requires Execution(states, steps)
    ensures Execution(states', steps')
    ensures var s := states[|steps|];
            states'[|steps'|] ==
            s.(log := s.log + [entry], due := s.due + Changes(Run(s.log), Run(s.log + [entry])))
  {
    var s := states[|steps|];
    var next := s.(log := s.log + [entry], due := s.due + Changes(Run(s.log), Run(s.log + [entry])));
    states', steps' := Continued(states, steps, next, OperateStep(entry));
  }

  /** The currency and the invoice have been saved; the creation is about to be announced. */
  lemma InvoiceCreated() returns (states: seq<State>, steps: seq<Step>)
    ensures Execution(states, steps)
    ensures states[|steps|] == START.(log := PREPARED, due := {Change(1, Waiting)})
  {
    PreparedLedger();
    states, steps := OperationFollows([START], [], PREPARED[0]);
    assert [] + [PREPARED[0]] == PREPARED[..1] && PREPARED[..1] + [PREPARED[1]] == PREPARED;
    assert Run([]) == EMPTY;
    assert Changes(Run([]), Run(PREPARED[..1])) == {};
    states, steps := OperationFollows(states, steps, PREPARED[1]);
    assert Changes(Run(PREPARED[..1]), Run(PREPARED)) == {Change(1, Waiting)};
  }

  /** The only row that is due is queued and selected, and its invoice is read. */
  lemma RowRead(states: seq<State>, steps: seq<Step>, change: Change) returns (states': seq<State>, steps': seq<Step>)
    requires Execution(states, steps)
    requires var s := states[|steps|];
             s.due == {change} && s.queue == [] && Idle(s) && s.batch == [] && Exists(s, change.id)
    ensures Execution(states', steps')
    ensures var s := states[|steps|];
            states'[|steps'|] == s.(due := {}, queue := [Notification(change.id, 0)],
                                    batch := [(change.id, Run(s.log).invoices[change.id])])
  {
    var row := Notification(change.id, 0);
    var queued := states[|steps|].(due := {}, queue := [row]);
    states', steps' := Continued(states, steps, queued, EnqueueStep(change, 0));
    assert OldestFirst([row], queued.queue);
    assert Select(queued, queued.(todo := [change.id]), [row]);
    states', steps' := Continued(states', steps', queued.(todo := [change.id]), SelectStep([row]));
    var notice := (change.id, Run(queued.log).invoices[change.id]);
    states', steps' := Continued(states', steps', queued.(batch := [notice]), ReadStep);
  }

  /** The waiting invoice has been sent, and its row is about to be deleted. */
  lemma WaitingPosted() returns (states: seq<State>, steps: seq<Step>)
    ensures Execution(states, steps)
    ensures 1 in Run(PREPARED).invoices && Run(PREPARED).invoices[1].status == Waiting
    ensures var notice := (1, Run(PREPARED).invoices[1]);
            states[|steps|] ==
            START.(log := PREPARED, queue := [Notification(1, 0)], posted := Some(notice), sent := [notice])
  {
    PreparedLedger();
    states, steps := InvoiceCreated();
    states, steps := RowRead(states, steps, Change(1, Waiting));
    var notice := (1, Run(PREPARED).invoices[1]);
    var posted := states[|steps|].(batch := [], posted := Some(notice), sent := [notice]);
    states, steps := Continued(states, steps, posted, SendStep);
  }

  /** The transfer pays the invoice, which is a transition to be announced. */
  lemma PaymentChanges() returns (log: seq<Entry>)
    ensures log == PREPARED + [Entry(0, Settle(MERCHANT, TRANSFER))]
    ensures 1 in Run(log).invoices && Run(log).invoices[1].status == Paid
    ensures Changes(Run(PREPARED), Run(log)) == {Change(1, Paid)}
  {
    PreparedLedger();
    TransferBooked(Run(PREPARED));
    log := PREPARED + [Entry(0, Settle(MERCHANT, TRANSFER))];
    assert log[..|PREPARED|] == PREPARED;
  }

  lemma NothingLeft()
    ensures Without([Notification(1, 0), Notification(1, 0)], 1) == []
  {
    var rows := [Notification(1, 0), Notification(1, 0)];
    assert rows[..1] == [Notification(1, 0)] && rows[..1][..0] == [];
  }

  /** The invoice is paid and its row queued before the row of the waiting message is deleted: both go. */
  lemma PaidIsNeverAnnounced() returns (states: seq<State>, steps: seq<Step>)
    ensures Execution(states, steps)
    ensures var s := states[|steps|];
            && Gone(s, 1) && StatusOf(s, 1) == Paid
            && |s.sent| == 1 && s.sent[0].0 == 1 && s.sent[0].1.status == Waiting
  {
    states, steps := WaitingPosted();
    var waiting := states[|steps|];
    var log := PaymentChanges();
    states, steps := OperationFollows(states, steps, Entry(0, Settle(MERCHANT, TRANSFER)));
    var s := waiting.(log := log, queue := [Notification(1, 0), Notification(1, 0)]);
    states, steps := Continued(states, steps, s, EnqueueStep(Change(1, Paid), 0));
    NothingLeft();
    states, steps := Continued(states, steps, s.(queue := [], posted := None), DeleteStep);
  }
}
