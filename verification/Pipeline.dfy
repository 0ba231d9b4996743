/**
  The whole service as one step machine: growing chains, loaders, indexers, the ledger, and the death
  of the process at any point (pkg/indexer, pkg/db).

  `log` is a history variable: the committed operations in order.
*/
module Pipeline {
  import opened Chain
  import opened Payments
  import opened Ledger
  import opened LedgerRuns
  import opened SyncSteps

  /**
    A tracked account. Positions stand for lts: `start` for start_tx_lt, `processed` for
    last_processed_lt, `cursor` for the indexer's lastIndexed. `loader` and `cursor` live in memory.
  */
  datatype Worker = Worker(
    account: Account,
    start: nat,
    stored: set<nat>,
    processed: nat,
    loader: Loader,
    cursor: nat)

  datatype State = State(
    chains: map<Address, seq<Tx>>,
    workers: map<Address, Worker>,
    books: Books,
    log: seq<Entry>,
    clock: int)

  // Steps

  ghost predicate Init(s: State) {
    && (forall a :: a in s.chains ==> IsChain(s.chains[a], a))
    && s.workers == map[] && s.books == EMPTY && s.log == []
  }

  /** The account `a` received another transaction. */
  ghost predicate Grow(s: State, s': State, a: Address, tx: Tx) {
    && a in s.chains
    && IsChain(s.chains[a] + [tx], a)
    && s' == s.(chains := s.chains[a := s.chains[a] + [tx]])
  }

  ghost predicate Tick(s: State, s': State) {
    s' == s.(clock := s'.clock) && s.clock <= s'.clock
  }

  /** An account is tracked from its head at that moment on. */
  ghost predicate AddAccount(s: State, s': State, account: Account, start: nat) {
    && account.id in s.chains && account.id !in s.workers
    && start <= |s.chains[account.id]|
    && s' == s.(workers := s.workers[account.id := Worker(account, start, {}, start, Starting, start)])
  }

  ghost predicate Load(s: State, s': State, a: Address, stored: set<nat>, loader: Loader) {
    && a in s.workers && a in s.chains
    && var w := s.workers[a];
       && LoaderStep(w.start, |s.chains[a]|, w.stored, w.loader, stored, loader)
       && s' == s.(workers := s.workers[a := w.(stored := stored, loader := loader)])
  }

  /** The state after the operation has been committed. */
  ghost function Logged(s: State, action: Action): State {
    s.(books := Apply(s.books, Entry(s.clock, action)), log := s.log + [Entry(s.clock, action)])
  }

  /** An operation of the API or of the expiry sweep. */
  ghost predicate Operate(s: State, s': State, action: Action) {
    !action.Settle? && s' == Logged(s, action)
  }

  /** The indexer of `w` finds the child of its cursor in storage. */
  ghost predicate Ready(w: Worker, chain: seq<Tx>) {
    w.cursor in w.stored && w.cursor < |chain|
  }

  /** The payments in the child that the indexer of `w` has found. */
  ghost function NextPayments(w: Worker, chain: seq<Tx>): seq<Payment>
    requires w.cursor < |chain|
  {
    PaymentsOf(chain[w.cursor], w.account)
  }

  /** Only a call that was reported as successful moves the indexer's own cursor. */
  ghost function Advanced(w: Worker, saving: Saving): Worker {
    w.(processed := w.cursor + 1, cursor := if saving == Saved then w.cursor + 1 else w.cursor)
  }

  /**
    SavePayments commits the child of the indexer's cursor. Afterwards the call may be reported as
    failed, because the answer was lost or because a notification was due and could not be queued.
  */
  ghost predicate Commit(s: State, s': State, a: Address, saving: Saving) {
    && a in s.workers && a in s.chains
    && var w := s.workers[a];
       && Ready(w, s.chains[a])
       && saving != RolledBack
       && (saving == Unnotified ==> Due(s.books, NextPayments(w, s.chains[a]), s.clock) != [])
       && s' == Logged(s, Settle(w.account, s.chains[a][w.cursor])).(workers := s.workers[a := Advanced(w, saving)])
  }

  ghost function Restarted(w: Worker): Worker {
    w.(loader := Starting, cursor := w.processed)
  }

  /** The process dies, between any two steps, and starts again from the database. */
  ghost predicate Crash(s: State, s': State) {
    s' == s.(workers := map a | a in s.workers :: Restarted(s.workers[a]))
  }

  datatype Step =
    | GrowStep(a: Address, tx: Tx)
    | TickStep
    | AddStep(account: Account, start: nat)
    | LoadStep(a: Address, stored: set<nat>, loader: Loader)
    | OperateStep(action: Action)
    | CommitStep(a: Address, saving: Saving)
    | CrashStep

  ghost predicate Next(s: State, s': State, step: Step) {
    match step
    case GrowStep(a, tx) => Grow(s, s', a, tx)
    case TickStep => Tick(s, s')
    case AddStep(account, start) => AddAccount(s, s', account, start)
    case LoadStep(a, stored, loader) => Load(s, s', a, stored, loader)
    case OperateStep(action) => Operate(s, s', action)
    case CommitStep(a, saving) => Commit(s, s', a, saving)
    case CrashStep => Crash(s, s')
  }

  ghost predicate StepAt(states: seq<State>, steps: seq<Step>, i: nat)
    requires |states| == |steps| + 1 && i < |steps|
  {
    Next(states[i], states[i + 1], steps[i])
  }

  ghost predicate Execution(states: seq<State>, steps: seq<Step>) {
    && |states| == |steps| + 1
    && Init(states[0])
    && forall i :: 0 <= i < |steps| ==> StepAt(states, steps, i)
  }

  // What the log says about one account

  ghost predicate Concerns(action: Action, a: Address) {
    action.Settle? && action.account.id == a
  }

  /** The settlements committed for account `a`, in order of their commits. */
  ghost function SettledBy(log: seq<Entry>, a: Address): seq<Action> {
    if log == [] then []
    else
      var last := log[|log| - 1].action;
      var before := SettledBy(log[..|log| - 1], a);
      if Concerns(last, a) then before + [last] else before
  }

  /** The settlements of the chain transactions `from`, ..., `to - 1`, each once and in order. */
  ghost function Settlements(account: Account, chain: seq<Tx>, from: nat, to: nat): (done: seq<Action>)
    requires from <= to <= |chain|
    ensures |done| == to - from
    ensures forall i :: 0 <= i < |done| ==> done[i] == Settle(account, chain[from + i])
  {
    if from == to then [] else Settlements(account, chain, from, to - 1) + [Settle(account, chain[to - 1])]
  }

  /** `done` with immediate repetitions removed. */
  ghost function Collapse(done: seq<Action>): seq<Action> {
    if |done| <= 1 then done
    else
      var n := |done| - 1;
      if done[n] == done[n - 1] then Collapse(done[..n]) else Collapse(done[..n]) + [done[n]]
  }

  lemma {:induction false} CollapseEnds(done: seq<Action>)
    ensures |Collapse(done)| <= |done|
    ensures |Collapse(done)| == |done| ==> Collapse(done) == done
    ensures done != [] ==> Collapse(done) != [] && Collapse(done)[|Collapse(done)| - 1] == done[|done| - 1]
  {
    if |done| > 1 {
      CollapseEnds(done[..|done| - 1]);
    }
  }

  /** Appending repeats the last settlement, or extends what remains. */
  lemma CollapseAppended(done: seq<Action>, action: Action)
    ensures Collapse(done + [action]) ==
            if done != [] && done[|done| - 1] == action then Collapse(done) else Collapse(done) + [action]
  {
    assert (done + [action])[..|done|] == done;
  }

  lemma NewIsAppended(done: seq<Action>, action: Action)
    requires action !in Collapse(done)
    ensures Collapse(done + [action]) == Collapse(done) + [action]
  {
    CollapseEnds(done);
    CollapseAppended(done, action);
  }

  lemma SettledNext(log: seq<Entry>, entry: Entry, a: Address)
    ensures SettledBy(log + [entry], a) ==
            if Concerns(entry.action, a) then SettledBy(log, a) + [entry.action] else SettledBy(log, a)
  {
    assert (log + [entry])[..|log|] == log;
  }

  // Invariant

  /** The stored history is well-shaped, and everything below the stored cursor is stored. */
  ghost predicate StorageOk(w: Worker, size: nat) {
    && LoaderInvariant(w.start, size, w.stored, w.loader)
    && w.start <= w.processed <= size
    && forall i: nat :: w.start <= i < w.processed ==> i in w.stored
  }

  /**
    Up to immediate repetitions, what was settled is the chain between the start of the account and
    the stored cursor; the indexer's own cursor is that one, or one behind.
  */
  ghost predicate CommitsOk(w: Worker, chain: seq<Tx>, done: seq<Action>) {
    && w.start <= w.processed <= |chain|
    && Collapse(done) == Settlements(w.account, chain, w.start, w.processed)
    && (w.cursor == w.processed || w.start <= w.cursor == w.processed - 1)
  }

  ghost predicate WorkerOk(a: Address, w: Worker, chain: seq<Tx>, done: seq<Action>) {
    && IsChain(chain, a)
    && w.account.id == a
    && StorageOk(w, |chain|)
    && CommitsOk(w, chain, done)
  }

  ghost predicate AccountOk(s: State, a: Address) {
    if a in s.workers then a in s.chains && WorkerOk(a, s.workers[a], s.chains[a], SettledBy(s.log, a))
    else SettledBy(s.log, a) == []
  }

  /** The books are those of the log, which runs forward in time. */
  ghost predicate LogOk(s: State) {
    && s.books == Run(s.log)
    && Clocked(s.log)
    && forall e :: e in s.log ==> e.at <= s.clock
  }

  ghost predicate Invariant(s: State) {
    && (forall a :: a in s.chains ==> IsChain(s.chains[a], a))
    && LogOk(s)
    && (forall a :: AccountOk(s, a))
  }

  // Preservation: what one step does to one account

  lemma GrownChainOk(a: Address, w: Worker, chain: seq<Tx>, tx: Tx, done: seq<Action>)
    requires WorkerOk(a, w, chain, done) && IsChain(chain + [tx], a)
    ensures WorkerOk(a, w, chain + [tx], done)
  {
    CrashKeepsInvariant(w.start, |chain|, |chain + [tx]|, w.stored, w.loader);
    assert Settlements(w.account, chain + [tx], w.start, w.processed)
        == Settlements(w.account, chain, w.start, w.processed);
  }

  lemma NewWorkerOk(account: Account, start: nat, chain: seq<Tx>)
    requires IsChain(chain, account.id) && start <= |chain|
    ensures WorkerOk(account.id, Worker(account, start, {}, start, Starting, start), chain, [])
  {
    assert InStep(start, |chain|, {}, Starting, start, start, start);
  }

  lemma LoadedWorkerOk(
      a: Address, w: Worker, chain: seq<Tx>, done: seq<Action>, stored: set<nat>, loader: Loader)
    requires WorkerOk(a, w, chain, done)
    requires LoaderStep(w.start, |chain|, w.stored, w.loader, stored, loader)
    ensures WorkerOk(a, w.(stored := stored, loader := loader), chain, done)
  {
    LoaderStepKeepsInvariant(w.start, |chain|, w.stored, w.loader, stored, loader);
  }

  lemma RestartedWorkerOk(a: Address, w: Worker, chain: seq<Tx>, done: seq<Action>)
    requires WorkerOk(a, w, chain, done)
    ensures WorkerOk(a, Restarted(w), chain, done)
  {
    CrashKeepsInvariant(w.start, |chain|, |chain|, w.stored, w.loader);
  }

  /** The next settlement extends the earlier ones; no transaction occurs twice in a chain, so it is none of them. */
  lemma SettlementIsNew(account: Account, chain: seq<Tx>, from: nat, p: nat)
    requires IsChain(chain, account.id) && from <= p < |chain|
    ensures Settlements(account, chain, from, p + 1) ==
            Settlements(account, chain, from, p) + [Settle(account, chain[p])]
    ensures Settle(account, chain[p]) !in Settlements(account, chain, from, p)
  {
    forall i | 0 <= i < p - from
      ensures Settlements(account, chain, from, p)[i] != Settle(account, chain[p])
    {
      PositionsDistinct(chain, account.id, from + i, p);
    }
  }

  /** A commit at the stored cursor extends the settled segment by one transaction. */
  lemma FirstCommitOk(w: Worker, chain: seq<Tx>, done: seq<Action>, saving: Saving)
    requires IsChain(chain, w.account.id) && CommitsOk(w, chain, done)
    requires w.cursor == w.processed < |chain|
    ensures CommitsOk(Advanced(w, saving), chain, done + [Settle(w.account, chain[w.cursor])])
  {
    SettlementIsNew(w.account, chain, w.start, w.processed);
    NewIsAppended(done, Settle(w.account, chain[w.cursor]));
  }

  /** A commit behind it repeats the last settlement, and the indexer catches up or stays one behind. */
  lemma RepeatedCommitOk(w: Worker, chain: seq<Tx>, done: seq<Action>, saving: Saving)
    requires CommitsOk(w, chain, done) && w.cursor < w.processed
    ensures CommitsOk(Advanced(w, saving), chain, done + [Settle(w.account, chain[w.cursor])])
  {
    CollapseEnds(done);
    CollapseAppended(done, Settle(w.account, chain[w.cursor]));
  }

  lemma CommittedWorkerOk(a: Address, w: Worker, chain: seq<Tx>, done: seq<Action>, saving: Saving)
    requires WorkerOk(a, w, chain, done) && Ready(w, chain)
    ensures WorkerOk(a, Advanced(w, saving), chain, done + [Settle(w.account, chain[w.cursor])])
  {
    if w.cursor == w.processed {
      FirstCommitOk(w, chain, done, saving);
    } else {
      RepeatedCommitOk(w, chain, done, saving);
    }
  }

  // Preservation: the steps of the machine

  lemma RunNext(log: seq<Entry>, entry: Entry)
    ensures Run(log + [entry]) == Apply(Run(log), entry)
  {
    assert (log + [entry])[..|log|] == log;
  }

  lemma ClockedNext(log: seq<Entry>, entry: Entry)
    requires Clocked(log) && forall e :: e in log ==> e.at <= entry.at
    ensures Clocked(log + [entry]) && forall e :: e in log + [entry] ==> e.at <= entry.at
  {
    forall i | 0 <= i < |log|
      ensures log[i].at <= entry.at
    {
      assert log[i] in log;
    }
  }

  lemma LoggedKeepsLog(s: State, action: Action)
    requires LogOk(s)
    ensures LogOk(Logged(s, action))
  {
    RunNext(s.log, Entry(s.clock, action));
    ClockedNext(s.log, Entry(s.clock, action));
  }

  lemma OperateKeeps(s: State, s': State, action: Action)
    requires Invariant(s) && Operate(s, s', action)
    ensures Invariant(s')
  {
    LoggedKeepsLog(s, action);
    forall b
      ensures AccountOk(s', b)
    {
      assert AccountOk(s, b);
      SettledNext(s.log, Entry(s.clock, action), b);
    }
  }

  /** What a commit leaves of its own account. */
  lemma CommitterKeeps(s: State, s': State, a: Address, saving: Saving)
    requires Invariant(s) && Commit(s, s', a, saving)
    ensures AccountOk(s', a)
  {
    assert AccountOk(s, a);
    var w := s.workers[a];
    SettledNext(s.log, Entry(s.clock, Settle(w.account, s.chains[a][w.cursor])), a);
    CommittedWorkerOk(a, w, s.chains[a], SettledBy(s.log, a), saving);
  }

  /** What a commit leaves of another account. */
  lemma BystanderKeeps(s: State, s': State, a: Address, saving: Saving, b: Address)
    requires Invariant(s) && Commit(s, s', a, saving) && b != a
    ensures AccountOk(s', b)
  {
    assert AccountOk(s, a) && AccountOk(s, b);
    var w := s.workers[a];
    SettledNext(s.log, Entry(s.clock, Settle(w.account, s.chains[a][w.cursor])), b);
  }

  lemma CommitKeeps(s: State, s': State, a: Address, saving: Saving)
    requires Invariant(s) && Commit(s, s', a, saving)
    ensures Invariant(s')
  {
    LoggedKeepsLog(s, Settle(s.workers[a].account, s.chains[a][s.workers[a].cursor]));
    forall b
      ensures AccountOk(s', b)
    {
      if b == a {
        CommitterKeeps(s, s', a, saving);
      } else {
        BystanderKeeps(s, s', a, saving, b);
      }
    }
  }

  /** A step that commits nothing leaves each account to its own lemma. */
  lemma SilentKeeps(s: State, s': State, step: Step)
    requires Invariant(s) && Next(s, s', step) && !step.OperateStep? && !step.CommitStep?
    ensures Invariant(s')
  {
    forall b
      ensures AccountOk(s', b)
    {
      assert AccountOk(s, b);
      match step
      case GrowStep(a, tx) =>
        if b == a && a in s.workers {
          GrownChainOk(a, s.workers[a], s.chains[a], tx, SettledBy(s.log, a));
        }
      case AddStep(account, start) =>
        if b == account.id {
          NewWorkerOk(account, start, s.chains[b]);
        }
      case LoadStep(a, stored, loader) =>
        if b == a {
          LoadedWorkerOk(a, s.workers[a], s.chains[a], SettledBy(s.log, a), stored, loader);
        }
      case CrashStep =>
        if b in s.workers {
          RestartedWorkerOk(b, s.workers[b], s.chains[b], SettledBy(s.log, b));
        }
      case TickStep =>
    }
  }

  lemma NextKeepsInvariant(s: State, s': State, step: Step)
    requires Invariant(s) && Next(s, s', step)
    ensures Invariant(s')
  {
    match step
    case OperateStep(action) => OperateKeeps(s, s', action);
    case CommitStep(a, saving) => CommitKeeps(s, s', a, saving);
    case _ => SilentKeeps(s, s', step);
  }

  lemma {:induction false} ExecutionKeepsInvariant(states: seq<State>, steps: seq<Step>, i: nat)
    requires Execution(states, steps) && i < |states|
    ensures Invariant(states[i])
  {
    if i > 0 {
      ExecutionKeepsInvariant(states, steps, i - 1);
      assert StepAt(states, steps, i - 1);
      NextKeepsInvariant(states[i - 1], states[i], steps[i - 1]);
    }
  }
}
