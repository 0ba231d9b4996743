/**
  The classes are instances of the step machine: what the methods of a worker do, seen from outside,
  is a step of the machine or several.
*/
module Simulation {
  import opened Connections
  import opened Chain
  import opened Transactions
  import opened Ledger
  import opened SyncSteps
  import opened Indexer
  import opened Pipeline
  import opened Repetitions

  /** The objects around an indexer worker hold what `s` says about its account. */
  ghost predicate Represents(worker: IndexerWorker, s: State)
    reads worker, worker.storage, worker.ledger
  {
    var a := worker.account.id;
    && a in s.workers && a in s.chains
    && var w, chain := s.workers[a], s.chains[a];
       && w.account == worker.account
       && worker.At(chain, w.cursor)
       && Held(worker.storage.rows, chain) == w.stored
       && worker.ledger.Contents() == s.books
       && w.processed <= |chain|
       && a in worker.ledger.lastProcessed && worker.ledger.lastProcessed[a] == LtAt(chain, w.processed)
  }

  /** A pass of the indexer loop is a commit of the machine, or changes nothing. */
  method PassIsCommit(worker: IndexerWorker, now: int, ghost s: State)
    returns (pass: Pass, ghost saving: Saving, ghost s': State)
    requires Represents(worker, s) && s.clock == now
    modifies worker`lastIndexed, worker.ledger, worker.ledger.db, worker.storage.db
    ensures Represents(worker, s')
    ensures if saving == RolledBack then s' == s else Commit(s, s', worker.account.id, saving)
    ensures pass.Advanced? <==> saving == Saved
  {
    ghost var a := worker.account.id;
    ghost var w, chain := s.workers[a], s.chains[a];
    pass, saving := worker.RunOnce(now, chain, w.cursor);
    if saving == RolledBack {
      s' := s;
    } else {
      s' := Logged(s, Settle(w.account, chain[w.cursor])).(workers := s.workers[a := Pipeline.Advanced(w, saving)]);
    }
  }

  /** A new worker that takes over the stored cursor is what a crash leaves of the old one. */
  method RestartIsCrash(worker: IndexerWorker, ghost s: State)
    returns (ok: bool, restarted: IndexerWorker, ghost s': State)
    requires Represents(worker, s)
    modifies worker.ledger.db
    ensures ok <==> worker.ledger.db.replies(old(worker.ledger.db.statements)) == Done
    ensures fresh(restarted) && Crash(s, s')
    ensures restarted.account == worker.account
    ensures ok ==> Represents(restarted, s')
  {
    restarted := new IndexerWorker(worker.account, worker.storage, worker.ledger);
    ok := restarted.LoadCursor();
    s' := s.(workers := map a | a in s.workers :: Restarted(s.workers[a]));
  }

  /** What the methods of a loader do, as they say themselves, is an execution of the machine. */
  lemma {:induction false} LeadsIsExecution(
      states: seq<State>, steps: seq<Step>, a: Address, trace: seq<Situation>, to: Situation)
    returns (states': seq<State>, steps': seq<Step>)
    requires Execution(states, steps) && a in states[|steps|].workers && a in states[|steps|].chains
    requires var s, w := states[|steps|], states[|steps|].workers[a];
             Leads(w.start, |s.chains[a]|, trace, (w.stored, w.loader), to)
    ensures Execution(states', steps')
    ensures var s, w := states[|steps|], states[|steps|].workers[a];
            states'[|steps'|] == s.(workers := s.workers[a := w.(stored := to.0, loader := to.1)])
    decreases |trace|
  {
    var s, w := states[|steps|], states[|steps|].workers[a];
    if |trace| == 1 {
      states', steps' := states, steps;
    } else {
      var n := |trace| - 1;
      states', steps' := LeadsIsExecution(states, steps, a, trace[..n], trace[n - 1]);
      assert LoaderStep(w.start, |s.chains[a]|, trace[n - 1].0, trace[n - 1].1, trace[n - 1 + 1].0, trace[n - 1 + 1].1);
      var next := s.(workers := s.workers[a := w.(stored := to.0, loader := to.1)]);
      assert Load(states'[|steps'|], next, a, to.0, to.1);
      states', steps' := Extended(states', steps', next, LoadStep(a, to.0, to.1));
    }
  }
}
