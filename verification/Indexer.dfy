/** The forward indexer of one account (pkg/indexer/indexer.go). */
module Indexer {
  import opened Wrappers
  import opened Connections
  import opened Chain
  import opened Transactions
  import opened Payments
  import opened Ledger

  /** How one pass of the loop ends; after `Retry` the next pass looks up the same transaction again. */
  datatype Pass = Idle | QueryFailed | Retry | Advanced

  /** The child of position `p` is transaction `p` itself, found exactly when it is stored. */
  lemma ChildOf(rows: Rows, chain: seq<Tx>, account: Address, p: nat, found: Option<Tx>)
    requires IsChain(chain, account) && Faithful(rows, chain, account) && p <= |chain|
    requires found.Some? ==>
               exists h :: h in rows && rows[h].accountId == account
                           && rows[h].tx.prevLt == LtAt(chain, p) && rows[h].tx == found.value
    requires found.None? ==>
               forall h :: h in rows && rows[h].accountId == account ==> rows[h].tx.prevLt != LtAt(chain, p)
    ensures found.Some? <==> p in Held(rows, chain)
    ensures found.Some? ==> found.value == chain[p]
  {
    if found.Some? {
      var h :| h in rows && rows[h].accountId == account
               && rows[h].tx.prevLt == LtAt(chain, p) && rows[h].tx == found.value;
      var i :| 0 <= i < |chain| && chain[i] == rows[h].tx;
      assert Linked(chain, account, i);
      LtOrdersPositions(chain, account, i, p);
    } else if p < |chain| {
      assert Linked(chain, account, p);
      assert Digest(chain[p]) !in rows || rows[Digest(chain[p])].tx == chain[p];
    }
  }

  /** The entries settle the chain transactions `from`, ..., `to - 1`, each once and in order. */
  ghost predicate SettlesInOrder(log: seq<Entry>, account: Account, chain: seq<Tx>, from: nat, to: nat) {
    && from <= to <= |chain| && |log| == to - from
    && forall i :: 0 <= i < |log| ==> log[i].action == Settle(account, chain[from + i])
  }

  lemma AppliedNext(b: Books, log: seq<Entry>, entry: Entry)
    ensures ApplyAll(b, log + [entry]) == Apply(ApplyAll(b, log), entry)
  {
    assert (log + [entry])[..|log|] == log;
  }

  class IndexerWorker {
    const account: Account
    const storage: TransactionTable
    const ledger: LedgerTables
    var lastIndexed: nat

    constructor (account: Account, storage: TransactionTable, ledger: LedgerTables)
      ensures this.account == account && this.storage == storage && this.ledger == ledger
    {
      this.account, this.storage, this.ledger := account, storage, ledger;
      lastIndexed := 0;
    }

    /** A starting worker continues from the stored cursor. */
    method LoadCursor() returns (ok: bool)
      modifies this`lastIndexed, ledger.db
      ensures ok <==> ledger.db.replies(old(ledger.db.statements)) == Done && account.id in ledger.lastProcessed
      ensures ok ==> account.id in ledger.lastProcessed && lastIndexed == ledger.lastProcessed[account.id]
      ensures !ok ==> lastIndexed == old(lastIndexed)
    {
      ok := ledger.db.Exec();
      if !ok {
        return false;
      }
      if account.id !in ledger.lastProcessed {
        return false;
      }
      lastIndexed := ledger.lastProcessed[account.id];
    }

    /** The worker stands before transaction `p` of `chain`. */
    ghost predicate At(chain: seq<Tx>, p: nat)
      reads this, storage
    {
      && IsChain(chain, account.id)
      && Faithful(storage.rows, chain, account.id)
      && p <= |chain|
      && lastIndexed == LtAt(chain, p)
    }

    /** Transaction `p` and the cursor behind it are committed together. */
    twostate predicate Settled(chain: seq<Tx>, p: nat, now: int)
      requires p < |chain|
      reads this, ledger
    {
      && ledger.Contents() == Apply(old(ledger.Contents()), Entry(now, Settle(account, chain[p])))
      && ledger.lastProcessed ==
           (if account.id in old(ledger.lastProcessed)
            then old(ledger.lastProcessed)[account.id := LtAt(chain, p + 1)] else old(ledger.lastProcessed))
      && ledger.processingErrors ==
           old(ledger.processingErrors)
           + (if Extracted(chain[p], account).Err? then {(account.id, LtAt(chain, p + 1))} else {})
    }

    method ExtractPayments(tx: Tx) returns (payments: Result<seq<Payment>>)
      ensures payments == Extracted(tx, account)
    {
      if account.info.jetton.Some? {
        payments := ExtractJettonPayments(tx, account);
      } else {
        payments := ExtractNativePayments(tx, account);
      }
    }

    /**
      One pass. The worker advances over every stored child, parsable or not, and never over one that
      is missing. After a failure it keeps its own cursor; the database is then untouched, or ahead.
      How the pass ends is up to the database alone: whether the child is there, and what fails.
    */
    method RunOnce(now: int, ghost chain: seq<Tx>, ghost p: nat) returns (pass: Pass, ghost saving: Saving)
      requires At(chain, p)
      modifies this`lastIndexed, ledger, ledger.db, storage.db
      ensures old(ledger.db.statements) <= ledger.db.statements
      ensures old(storage.db.statements) < storage.db.statements
      ensures pass.QueryFailed? <==> storage.db.replies(old(storage.db.statements)) != Connections.Done
      ensures pass.Idle? ==> p !in Held(storage.rows, chain)
      ensures pass.Retry? || pass.Advanced? ==> p in Held(storage.rows, chain)
      ensures pass.Retry? ==> ledger.db.Trouble(old(ledger.db.statements), ledger.db.statements)
      ensures pass.Advanced? ==> !ledger.db.Trouble(old(ledger.db.statements), ledger.db.statements)
      ensures At(chain, if pass.Advanced? then p + 1 else p)
      ensures pass.Advanced? <==> saving == Saved
      ensures pass.Idle? || pass.QueryFailed? ==> saving == RolledBack
      ensures saving == RolledBack ==> unchanged(ledger)
      ensures saving != RolledBack ==> p < |chain| && Settled(chain, p, now)
      ensures saving == Unnotified ==> Due(old(ledger.Contents()), PaymentsOf(chain[p], account), now) != []
    {
      saving := RolledBack;
      var found := storage.GetTransactionByParentLt(account.id, lastIndexed);
      if found.Err? {
        return QueryFailed, RolledBack;
      }
      ChildOf(storage.rows, chain, account.id, p, found.value);
      if found.value.None? {
        return Idle, RolledBack;
      }
      var tx := found.value.value;
      var payments := ExtractPayments(tx);
      var ok;
      ok, saving := ledger.SavePayments(account.id, tx.lt, payments, now);
      if !ok {
        return Retry, saving;
      }
      lastIndexed := tx.lt;
      pass := Advanced;
    }

    /** All statements since the counters stood at `l` and `s` have been answered. */
    ghost predicate Answered(l: nat, s: nat)
      reads ledger.db, storage.db
    {
      !ledger.db.Trouble(l, ledger.db.statements) && !storage.db.Trouble(s, storage.db.statements)
    }

    /**
      Any number of passes. As long as no error followed a commit, the books have seen exactly the
      next transactions of the chain, each once and in order. If all statements are answered, every
      pass settles one, until the next is not stored.
    */
    method Run(times: seq<int>, ghost chain: seq<Tx>, ghost p: nat)
      returns (ghost clean: bool, ghost p': nat, ghost log: seq<Entry>)
      requires At(chain, p)
      modifies this`lastIndexed, ledger, ledger.db, storage.db
      ensures At(chain, p') && p <= p'
      ensures clean ==> SettlesInOrder(log, account, chain, p, p')
      ensures clean ==> ledger.Contents() == ApplyAll(old(ledger.Contents()), log)
      ensures clean && p < p' && account.id in old(ledger.lastProcessed) ==>
                account.id in ledger.lastProcessed && ledger.lastProcessed[account.id] == lastIndexed
      ensures Answered(old(ledger.db.statements), old(storage.db.statements)) ==>
                clean && (p' == p + |times| || p' !in Held(storage.rows, chain))
    {
      clean, p', log := true, p, [];
      for i := 0 to |times|
        invariant At(chain, p') && p <= p'
        invariant clean ==> SettlesInOrder(log, account, chain, p, p')
        invariant clean ==> ledger.Contents() == ApplyAll(old(ledger.Contents()), log)
        invariant clean ==> (account.id in ledger.lastProcessed <==> account.id in old(ledger.lastProcessed))
        invariant clean && p < p' && account.id in old(ledger.lastProcessed) ==>
                    ledger.lastProcessed[account.id] == lastIndexed
        invariant old(ledger.db.statements) <= ledger.db.statements
        invariant old(storage.db.statements) <= storage.db.statements
        invariant Answered(old(ledger.db.statements), old(storage.db.statements)) ==>
                    clean && (p' == p + i || p' !in Held(storage.rows, chain))
      {
        var pass;
        ghost var saving;
        pass, saving := RunOnce(times[i], chain, p');
        if pass.Advanced? {
          ghost var entry := Entry(times[i], Settle(account, chain[p']));
          AppliedNext(old(ledger.Contents()), log, entry);
          p', log := p' + 1, log + [entry];
        } else if saving != RolledBack {
          clean := false;
        }
      }
    }
  }
}
