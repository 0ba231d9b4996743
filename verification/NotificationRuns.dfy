/**
  The notification queue and its sender among all other operations (pkg/notifier/notifier.go,
  pkg/db/invoices.go): what is promised about messages, and how a transition can be missed.
*/
module NotificationRuns {
  import opened Wrappers
  import opened Chain
  import opened Payments
  import opened Invoices
  import opened Ledger
  import opened LedgerRuns
  import opened Notifier

  /** A transition whose row has still to be queued. */
  datatype Change = Change(id: InvoiceId, status: Status)

  /**
    `log` is what the ledger has committed. Its operations queue their rows afterwards: `due` are those
    not queued yet. The sender has selected the invoices `todo` to be read, holds the messages `batch`
    that it has read, and may have `posted` one whose rows it has still to delete.
  */
  datatype State = State(
    log: seq<Entry>,
    due: set<Change>,
    queue: seq<Notification>,
    todo: seq<InvoiceId>,
    batch: seq<Notice>,
    posted: Option<Notice>,
    sent: seq<Notice>)

  const START := State([], {}, [], [], [], None, [])

  /** The new invoices and the changed statuses. */
  ghost function Changes(before: Books, after: Books): set<Change> {
    set id | id in after.invoices
             && (id in before.invoices ==> after.invoices[id].status != before.invoices[id].status)
           :: Change(id, after.invoices[id].status)
  }

  ghost predicate Operate(s: State, s': State, entry: Entry) {
    s' == s.(log := s.log + [entry], due := s.due + Changes(Run(s.log), Run(s.log + [entry])))
  }

  ghost predicate Enqueue(s: State, s': State, change: Change, at: int) {
    && change in s.due
    && s' == s.(due := s.due - {change}, queue := s.queue + [Notification(change.id, at)])
  }

  /** The insert fails, or the process dies before it. */
  ghost predicate Forget(s: State, s': State, change: Change) {
    change in s.due && s' == s.(due := s.due - {change})
  }

  predicate Idle(s: State) {
    s.todo == [] && s.posted == None
  }

  ghost predicate Select(s: State, s': State, rows: seq<Notification>) {
    && Idle(s) && s.batch == []
    && OldestFirst(rows, s.queue) && |rows| == (if BATCH_LIMIT < |s.queue| then BATCH_LIMIT else |s.queue|)
    && s' == s.(todo := seq(|rows|, i requires 0 <= i < |rows| => rows[i].id))
  }

  ghost predicate ReadLive(s: State, s': State) {
    && s.posted == None && s.todo != [] && s.todo[0] in Run(s.log).invoices
    && s' == s.(todo := s.todo[1..], batch := s.batch + [(s.todo[0], Run(s.log).invoices[s.todo[0]])])
  }

  ghost predicate Send(s: State, s': State) {
    && Idle(s) && s.batch != []
    && s' == s.(batch := s.batch[1..], sent := s.sent + [s.batch[0]], posted := Some(s.batch[0]))
  }

  /** The endpoint reports an error, though the message may have `arrived`. */
  ghost predicate SendFails(s: State, s': State, arrived: bool) {
    && Idle(s) && s.batch != []
    && s' == s.(batch := [], sent := if arrived then s.sent + [s.batch[0]] else s.sent)
  }

  /** An invoice that cannot be printed. */
  ghost predicate Skip(s: State, s': State) {
    Idle(s) && s.batch != [] && s' == s.(batch := s.batch[1..])
  }

  ghost predicate Delete(s: State, s': State) {
    s.posted.Some? && s' == s.(queue := Without(s.queue, s.posted.value.0), posted := None)
  }

  /** Rows from before `limit` are deleted, whatever they announce. */
  ghost predicate Purge(s: State, s': State, limit: int) {
    s' == s.(queue := Recent(s.queue, limit))
  }

  /** An error or a restart: what is still queued is read again later. */
  ghost predicate Drop(s: State, s': State) {
    s' == s.(todo := [], batch := [], posted := None)
  }

  datatype Step =
    | OperateStep(entry: Entry)
    | EnqueueStep(change: Change, at: int)
    | ForgetStep(change: Change)
    | SelectStep(rows: seq<Notification>)
    | ReadStep
    | SendStep
    | SendFailsStep(arrived: bool)
    | SkipStep
    | DeleteStep
    | PurgeStep(limit: int)
    | DropStep

  ghost predicate Next(s: State, s': State, step: Step) {
    match step
    case OperateStep(entry) => Operate(s, s', entry)
    case EnqueueStep(change, at) => Enqueue(s, s', change, at)
    case ForgetStep(change) => Forget(s, s', change)
    case SelectStep(rows) => Select(s, s', rows)
    case ReadStep => ReadLive(s, s')
    case SendStep => Send(s, s')
    case SendFailsStep(arrived) => SendFails(s, s', arrived)
    case SkipStep => Skip(s, s')
    case DeleteStep => Delete(s, s')
    case PurgeStep(limit) => Purge(s, s', limit)
    case DropStep => Drop(s, s')
  }

  ghost predicate StepAt(states: seq<State>, steps: seq<Step>, i: nat)
    requires |states| == |steps| + 1 && i < |steps|
  {
    Next(states[i], states[i + 1], steps[i])
  }

  ghost predicate Execution(states: seq<State>, steps: seq<Step>) {
    && |states| == |steps| + 1
    && states[0] == START
    && forall i :: 0 <= i < |steps| ==> StepAt(states, steps, i)
  }

  // The order of messages

  /** From `earlier` to `later` a finished invoice has kept its status and receipt. */
  ghost predicate NoRegress(earlier: Invoice, later: Invoice) {
    earlier.status != Waiting ==> later == earlier.(overpayment := later.overpayment, updatedAt := later.updatedAt)
  }

  ghost predicate InOrder(messages: seq<Notice>) {
    forall i, j :: 0 <= i < j < |messages| && messages[i].0 == messages[j].0 ==>
      NoRegress(messages[i].1, messages[j].1)
  }

  ghost predicate NotAhead(messages: seq<Notice>, b: Books) {
    forall i :: 0 <= i < |messages| ==>
      messages[i].0 in b.invoices && NoRegress(messages[i].1, b.invoices[messages[i].0])
  }

  ghost predicate Invariant(s: State) {
    && InOrder(s.sent + s.batch)
    && NotAhead(s.sent + s.batch, Run(s.log))
    && (s.posted.Some? ==> s.sent != [] && s.posted.value == s.sent[|s.sent| - 1])
  }

  /** An operation moves no invoice backwards. */
  lemma LiveRowsAdvance(log: seq<Entry>, entry: Entry, messages: seq<Notice>)
    requires NotAhead(messages, Run(log))
    ensures NotAhead(messages, Run(log + [entry]))
  {
    var longer := log + [entry];
    assert longer[..|log|] == log;
    forall i | 0 <= i < |messages|
      ensures messages[i].0 in Run(longer).invoices && NoRegress(messages[i].1, Run(longer).invoices[messages[i].0])
    {
      RunPreserves(longer, |log|);
      if messages[i].1.status != Waiting {
        FinishedRowsStay(longer, |log|, messages[i].0);
      }
    }
  }

  /** What remains of ordered messages is ordered. */
  lemma PartInOrder(all: seq<Notice>, m: nat, n: nat, b: Books)
    requires InOrder(all) && NotAhead(all, b) && m <= n <= |all|
    ensures InOrder(all[..m] + all[n..]) && NotAhead(all[..m] + all[n..], b)
  {
    var part := all[..m] + all[n..];
    forall i, j | 0 <= i < j < |part| && part[i].0 == part[j].0
      ensures NoRegress(part[i].1, part[j].1)
    {
      var k, l := if i < m then i else i - m + n, if j < m then j else j - m + n;
      assert all[k] == part[i] && all[l] == part[j];
    }
  }

  /** The messages from `m` to `n` are not sent any more. */
  lemma DiscardingKeeps(s: State, s': State, m: nat, n: nat)
    requires Invariant(s) && s'.log == s.log && s'.posted == None
    requires var all := s.sent + s.batch;
             m <= n <= |all| && s'.sent + s'.batch == all[..m] + all[n..]
    ensures Invariant(s')
  {
    PartInOrder(s.sent + s.batch, m, n, Run(s.log));
  }

  lemma NextKeepsInvariant(s: State, s': State, step: Step)
    requires Invariant(s) && Next(s, s', step)
    ensures Invariant(s')
  {
    var all, all' := s.sent + s.batch, s'.sent + s'.batch;
    match step
    case OperateStep(entry) => LiveRowsAdvance(s.log, entry, all);
    case ReadStep => assert all' == all + [(s.todo[0], Run(s.log).invoices[s.todo[0]])];
    case SendStep => assert all' == all;
    case SendFailsStep(_) => DiscardingKeeps(s, s', |s'.sent|, |all|);
    case SkipStep => DiscardingKeeps(s, s', |s.sent|, |s.sent| + 1);
    case DropStep => DiscardingKeeps(s, s', |s.sent|, |all|);
    case _ =>
  }

  lemma {:induction false} ExecutionKeepsInvariant(states: seq<State>, steps: seq<Step>, i: nat)
    requires Execution(states, steps) && i < |states|
    ensures Invariant(states[i])
  {
    if i > 0 {
      ExecutionKeepsInvariant(states, steps, i - 1);
      assert StepAt(states, steps, i - 1);
      NextKeepsInvariant(states[i - 1], states[i], steps[i - 1]);
    }
  }

  /**
    Over every execution, with retries, repeated rows and restarts, the messages about one invoice
    are a run of waiting ones followed by repetitions of one and the same final status.
  */
  lemma NotificationsNeverRegress(states: seq<State>, steps: seq<Step>, i: nat, m: nat, n: nat)
    requires Execution(states, steps) && i < |states|
    requires m < n < |states[i].sent| && states[i].sent[m].0 == states[i].sent[n].0
    ensures NoRegress(states[i].sent[m].1, states[i].sent[n].1)
    ensures states[i].sent[m].1.status == Waiting || states[i].sent[n].1.status == states[i].sent[m].1.status
  {
    ExecutionKeepsInvariant(states, steps, i);
    var all := states[i].sent + states[i].batch;
    assert all[m] == states[i].sent[m] && all[n] == states[i].sent[n];
  }

  /** The rows that SavePayments queues are those of the transitions it has made, all of them to `Paid`. */
  lemma {:induction false} DueAreChanges(b: Books, payments: seq<Payment>, at: int, id: InvoiceId)
    requires id in b.invoices
    ensures id in BookedAll(b, payments, at).invoices
    ensures var status := BookedAll(b, payments, at).invoices[id].status;
            && (status != b.invoices[id].status <==> Notification(id, at) in Due(b, payments, at))
            && (status != b.invoices[id].status ==> b.invoices[id].status == Waiting && status == Paid)
    decreases |payments|
  {
    if payments != [] {
      DueAreChanges(b, payments[..|payments| - 1], at, id);
    }
  }

  // The delivery of a status

  ghost predicate Exists(s: State, id: InvoiceId) {
    id in Run(s.log).invoices
  }

  ghost function StatusOf(s: State, id: InvoiceId): Status
    requires Exists(s, id)
  {
    Run(s.log).invoices[id].status
  }

  /** A message has shown the invoice in its present status. */
  ghost predicate Announced(s: State, id: InvoiceId)
    requires Exists(s, id)
  {
    exists i :: 0 <= i < |s.sent| && s.sent[i].0 == id && s.sent[i].1.status == StatusOf(s, id)
  }

  ghost predicate DueFor(s: State, id: InvoiceId) {
    exists change :: change in s.due && change.id == id
  }

  /** The present status has been announced, or there is a row of the invoice, queued or still to be. */
  ghost predicate Covered(s: State, id: InvoiceId)
    requires Exists(s, id)
  {
    Announced(s, id) || Queued(s.queue, id) || DueFor(s, id)
  }

  /**
    Before the rows of a message are deleted: the present status has been announced exactly if it is
    the one in the message. Comparing the two before the DELETE would tell.
  */
  lemma PostedIsPresent(s: State)
    requires Invariant(s) && s.posted.Some?
    ensures Exists(s, s.posted.value.0)
    ensures Announced(s, s.posted.value.0) <==> StatusOf(s, s.posted.value.0) == s.posted.value.1.status
  {
    var all, n := s.sent + s.batch, |s.sent| - 1;
    var id := s.posted.value.0;
    assert all[n] == s.posted.value;
    if i :| 0 <= i < |s.sent| && s.sent[i].0 == id && s.sent[i].1.status == StatusOf(s, id) {
      assert all[i] == s.sent[i];
    }
  }

  /**
    Step `step` gives up the present status of the invoice: the rows are deleted for a message that
    shows another one, or are all too old, or the last row to be queued is forgotten.
  */
  ghost predicate Misses(s: State, step: Step, id: InvoiceId)
    requires Exists(s, id)
  {
    match step
    case DeleteStep =>
      s.posted.Some? && s.posted.value.0 == id && StatusOf(s, id) != s.posted.value.1.status && !DueFor(s, id)
    case PurgeStep(limit) =>
      !Announced(s, id) && !DueFor(s, id) && forall row :: row in s.queue && row.id == id ==> row.updatedAt < limit
    case ForgetStep(change) =>
      && change.id == id && !Announced(s, id) && !Queued(s.queue, id)
      && forall other :: other in s.due && other.id == id ==> other == change
    case _ => false
  }

  lemma OperationCovers(s: State, s': State, entry: Entry, id: InvoiceId)
    requires Operate(s, s', entry) && Exists(s, id) && Covered(s, id)
    ensures Exists(s', id) && Covered(s', id)
  {
    var before, after := Run(s.log), Run(s'.log);
    assert s'.log[..|s.log|] == s.log;
    RunPreserves(s'.log, |s.log|);
    if after.invoices[id].status != before.invoices[id].status {
      assert Change(id, after.invoices[id].status) in s'.due;
    } else if Announced(s, id) {
      assert Announced(s', id);
    } else if DueFor(s, id) {
      var change :| change in s.due && change.id == id;
      assert change in s'.due;
    }
  }

  lemma DeletionCovers(s: State, s': State, id: InvoiceId)
    requires Invariant(s) && Delete(s, s') && Exists(s, id) && Covered(s, id)
    ensures Exists(s', id) && (Covered(s', id) <==> !Misses(s, DeleteStep, id))
  {
    QueuedWithout(s.queue, s.posted.value.0);
    PostedIsPresent(s);
    assert Announced(s', id) == Announced(s, id);
  }

  lemma QueueGrows(rows: seq<Notification>, row: Notification, id: InvoiceId)
    ensures Queued(rows + [row], id) <==> Queued(rows, id) || row.id == id
  {
    var all := rows + [row];
    if i :| 0 <= i < |rows| && rows[i].id == id {
      assert all[i].id == id;
    }
    assert all[|rows|] == row;
  }

  lemma EnqueueCovers(s: State, s': State, change: Change, at: int, id: InvoiceId)
    requires Enqueue(s, s', change, at) && Exists(s, id) && Covered(s, id)
    ensures Exists(s', id) && Covered(s', id)
  {
    QueueGrows(s.queue, Notification(change.id, at), id);
    if Announced(s, id) {
      assert Announced(s', id);
    } else if DueFor(s, id) && change.id != id {
      var other :| other in s.due && other.id == id;
      assert other in s'.due;
    }
  }

  lemma ForgettingCovers(s: State, s': State, change: Change, id: InvoiceId)
    requires Forget(s, s', change) && Exists(s, id) && Covered(s, id)
    ensures Exists(s', id) && (Covered(s', id) <==> !Misses(s, ForgetStep(change), id))
  {
    assert Announced(s', id) == Announced(s, id);
    if other :| other in s.due && other.id == id && other != change {
      assert other in s'.due;
    }
  }

  lemma PurgeCovers(s: State, s': State, limit: int, id: InvoiceId)
    requires Purge(s, s', limit) && Exists(s, id) && Covered(s, id)
    ensures Exists(s', id) && (Covered(s', id) <==> !Misses(s, PurgeStep(limit), id))
  {
    assert Announced(s', id) == Announced(s, id);
    QueuedRecent(s.queue, limit, id);
  }

  lemma QueuedRecent(rows: seq<Notification>, limit: int, id: InvoiceId)
    ensures Queued(Recent(rows, limit), id) <==> exists row :: row in rows && row.id == id && limit <= row.updatedAt
  {
    RecentKeepsOthers(rows, limit);
    QueuedIsCounted(Recent(rows, limit), id);
    assert forall row :: row in rows <==> row in multiset(rows);
  }

  /** More messages announce more. */
  lemma MoreSentCovers(s: State, s': State, id: InvoiceId)
    requires Exists(s, id) && Covered(s, id)
    requires s'.log == s.log && s'.due == s.due && s'.queue == s.queue && s.sent <= s'.sent
    ensures Covered(s', id)
  {
    if i :| 0 <= i < |s.sent| && s.sent[i].0 == id && s.sent[i].1.status == StatusOf(s, id) {
      assert s'.sent[i] == s.sent[i];
    }
  }

  /** The exact condition for one step: the present status of an invoice remains covered unless the step misses it. */
  lemma CoveredUnlessMissed(s: State, s': State, step: Step, id: InvoiceId)
    requires Invariant(s) && Next(s, s', step) && Exists(s, id) && Covered(s, id)
    ensures Exists(s', id) && (Covered(s', id) <==> !Misses(s, step, id))
  {
    match step
    case OperateStep(entry) => OperationCovers(s, s', entry, id);
    case EnqueueStep(change, at) => EnqueueCovers(s, s', change, at, id);
    case ForgetStep(change) => ForgettingCovers(s, s', change, id);
    case DeleteStep => DeletionCovers(s, s', id);
    case PurgeStep(limit) => PurgeCovers(s, s', limit, id);
    case _ => MoreSentCovers(s, s', id);
  }

  /** A new invoice is covered by the row that its creation is about to queue. */
  lemma NewcomerCovered(s: State, s': State, step: Step, id: InvoiceId)
    requires Next(s, s', step) && !Exists(s, id) && Exists(s', id)
    ensures Covered(s', id)
  {
    assert Change(id, StatusOf(s', id)) in s'.due;
  }

  ghost predicate NeverMissed(states: seq<State>, steps: seq<Step>, i: nat, id: InvoiceId)
    requires |states| == |steps| + 1 && i < |states|
  {
    forall j :: 0 <= j < i && Exists(states[j], id) ==> !Misses(states[j], steps[j], id)
  }

  /** As long as no step misses it, the present status of every invoice is announced or still going to be. */
  lemma {:induction false} PresentStatusCovered(states: seq<State>, steps: seq<Step>, i: nat, id: InvoiceId)
    requires Execution(states, steps) && i < |states| && Exists(states[i], id)
    requires NeverMissed(states, steps, i, id)
    ensures Covered(states[i], id)
  {
    assert Run([]) == EMPTY;
    var j := i - 1;
    assert StepAt(states, steps, j);
    if Exists(states[j], id) {
      PresentStatusCovered(states, steps, j, id);
      ExecutionKeepsInvariant(states, steps, j);
      CoveredUnlessMissed(states[j], states[i], steps[j], id);
    } else {
      NewcomerCovered(states[j], states[i], steps[j], id);
    }
  }

  // A status that is never announced

  /** The final status of the invoice has not been announced, and nothing is left that could do so. */
  ghost predicate Gone(s: State, id: InvoiceId) {
    && Exists(s, id) && StatusOf(s, id) != Waiting
    && !Covered(s, id)
    && id !in s.todo
    && forall m :: m in s.batch && m.0 == id ==> m.1.status != StatusOf(s, id)
  }

  lemma GoneOverOperation(s: State, s': State, entry: Entry, id: InvoiceId)
    requires Gone(s, id) && Operate(s, s', entry)
    ensures Gone(s', id)
  {
    assert s'.log[..|s.log|] == s.log;
    FinishedRowsStay(s'.log, |s.log|, id);
    assert Announced(s', id) == Announced(s, id);
    assert DueFor(s', id) == DueFor(s, id);
  }

  lemma GoneStays(s: State, s': State, step: Step, id: InvoiceId)
    requires Gone(s, id) && Next(s, s', step)
    ensures Gone(s', id)
  {
    match step
    case OperateStep(entry) => GoneOverOperation(s, s', entry, id);
    case EnqueueStep(change, at) => QueueGrows(s.queue, Notification(change.id, at), id);
    case SelectStep(rows) => SelectedAreQueued(rows, s.queue, id);
    case DeleteStep => QueuedWithout(s.queue, s.posted.value.0);
    case PurgeStep(limit) => GoneOverPurge(s, s', limit, id);
    case _ =>
  }

  lemma GoneOverPurge(s: State, s': State, limit: int, id: InvoiceId)
    requires Gone(s, id) && Purge(s, s', limit)
    ensures Gone(s', id)
  {
    QueuedRecent(s.queue, limit, id);
    QueuedIsCounted(s.queue, id);
    assert Announced(s', id) == Announced(s, id);
  }

  lemma SelectedAreQueued(picked: seq<Notification>, rows: seq<Notification>, id: InvoiceId)
    requires multiset(picked) <= multiset(rows) && !Queued(rows, id)
    ensures forall i :: 0 <= i < |picked| ==> picked[i].id != id
  {
    forall i | 0 <= i < |picked|
      ensures picked[i].id != id
    {
      assert picked[i] in multiset(picked);
      assert picked[i] in rows;
    }
  }

  /** What is gone is never announced, however the execution goes on. */
  lemma {:induction false} NeverAnnounced(states: seq<State>, steps: seq<Step>, i: nat, j: nat, id: InvoiceId)
    requires Execution(states, steps) && i <= j < |states| && Gone(states[i], id)
    ensures Exists(states[j], id) && !Announced(states[j], id)
    ensures Gone(states[j], id)
  {
    if i < j {
      NeverAnnounced(states, steps, i, j - 1, id);
      assert StepAt(states, steps, j - 1);
      GoneStays(states[j - 1], states[j], steps[j - 1], id);
    }
  }
}
