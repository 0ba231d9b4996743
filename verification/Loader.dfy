/**
  The backward loader of one account (pkg/indexer/loader.go).

  A method that returns early stands for an error return, a panic and the death of the process
  alike: what it promises then is what the next start of the service finds in the table. The ghost
  arguments give the position in the account's chain of each lt that is passed along.
*/
module Loader {
  import opened Wrappers
  import opened Connections
  import opened Chain
  import opened Client
  import opened Transactions
  import opened SyncSteps

  const MAX_ATTEMPTS: nat := 200

  /** The last transaction of an account, as reported by the server. */
  datatype Head = Head(lt: nat, hash: Hash)

  datatype Outcome = Synced | Failed | Panicked

  /** `head` is the real state of the account after `n` transactions. */
  ghost predicate IsHead(chain: seq<Tx>, n: nat, head: Head) {
    n <= |chain| && head.lt == LtAt(chain, n) && EndsWith(chain, n, head.hash)
  }

  class LoaderWorker {
    const account: Address
    const maxDepthLt: nat
    const storage: TransactionTable
    /** The answers of the lite server, by the number of the request: an error, or anything at all. */
    const server: nat -> Result<seq<Tx>>
    var requests: nat
    var lastLt: nat

    constructor (account: Address, maxDepthLt: nat, storage: TransactionTable, server: nat -> Result<seq<Tx>>)
      ensures this.account == account && this.maxDepthLt == maxDepthLt
      ensures this.storage == storage && this.server == server
      ensures requests == 0 && lastLt == 0
    {
      this.account, this.maxDepthLt, this.storage, this.server := account, maxDepthLt, storage, server;
      requests, lastLt := 0, 0;
    }

    /** From request `m` on the server was of no use for 200 requests with the same hash and lower end. */
    ghost predicate SilentAt(m: nat, hash: Hash, endLt: nat) {
      forall n: nat :: m <= n < m + 200 ==> Useless(server(n), hash, endLt)
    }

    /** That has happened between the requests `from` and `to`. */
    ghost predicate Silent(from: nat, to: nat) {
      exists m: nat, hash: Hash, endLt: nat :: from <= m && m + 200 <= to && SilentAt(m, hash, endLt)
    }

    /** The counters stood at `r` and `d` before. */
    ghost predicate Counted(r: nat, d: nat)
      reads this`requests, storage.db
    {
      r <= requests && d <= storage.db.statements
    }

    /** Since then every statement has been answered. */
    ghost predicate Reliable(d: nat)
      reads storage.db
    {
      !storage.db.Trouble(d, storage.db.statements)
    }

    /** Since then the server was silent, or the database failed. */
    ghost predicate Failing(r: nat, d: nat)
      reads this`requests, storage.db
    {
      Silent(r, requests) || storage.db.Trouble(d, storage.db.statements)
    }

    /** The rows of this account are chain transactions, and `k` is the position of its starting depth. */
    ghost predicate Tracks(chain: seq<Tx>, k: nat)
      reads storage
    {
      && IsChain(chain, account)
      && Faithful(storage.rows, chain, account)
      && k <= |chain|
      && maxDepthLt == LtAt(chain, k)
    }

    ghost function Stored(chain: seq<Tx>): set<nat>
      reads storage
    {
      Held(storage.rows, chain)
    }

    /** Asks a server that may fail or send anything at all. */
    method QueryTransactions(startHash: Hash, endLt: nat) returns (r: Result<seq<Tx>>)
      modifies this`requests
      ensures requests == old(requests) + 1
      ensures r.Ok? ==> Verified(r.value, startHash, endLt)
      ensures r.Ok? ==> server(old(requests)).Ok? && r.value <= server(old(requests)).value
                        && CutsAt(server(old(requests)).value, startHash, endLt, |r.value|)
      ensures r.Ok? && |r.value| > 0 <==> !Useless(server(old(requests)), startHash, endLt)
    {
      var answer := server(requests);
      requests := requests + 1;
      r := GetTransactions(answer, endLt, startHash);
      if r.Ok? && CutsAt(answer.value, startHash, endLt, 0) {
        OneCut(answer.value, startHash, endLt, 0, |r.value|);
      }
    }

    /**
      Repeats the query until it brings something; an answer without transactions is a failure. The
      first useful answer is taken, and 200 useless ones are the only reason to give up.
    */
    method FetchBatch(startHash: Hash, endLt: nat) returns (r: Result<seq<Tx>>)
      modifies this`requests
      ensures r.Ok? ==> |r.value| > 0
      ensures r.Ok? ==> Verified(r.value, startHash, endLt)
      ensures old(requests) < requests <= old(requests) + 200
      ensures r.Ok? ==> server(requests - 1).Ok? && r.value <= server(requests - 1).value
                        && CutsAt(server(requests - 1).value, startHash, endLt, |r.value|)
      ensures forall n: nat :: old(requests) <= n < requests - 1 ==> Useless(server(n), startHash, endLt)
      ensures r.Err? ==> requests == old(requests) + 200 && SilentAt(old(requests), startHash, endLt)
    {
      r := Err;
      for i := 0 to MAX_ATTEMPTS
        invariant requests == old(requests) + i
        invariant forall n: nat :: old(requests) <= n < requests ==> Useless(server(n), startHash, endLt)
        invariant r.Ok? ==> |r.value| == 0
      {
        r := QueryTransactions(startHash, endLt);
        if r.Ok? && |r.value| > 0 {
          return;
        }
      }
      r := Err;
    }

    /** Fetches one batch below position `p` and saves it; `low` is how far down it got. */
    method SyncGapIteration(startHash: Hash, startLt: nat, endLt: nat,
                            ghost chain: seq<Tx>, ghost k: nat, ghost p: nat, ghost q: nat)
      returns (r: Result<(Hash, nat)>, ghost low: nat)
      requires Tracks(chain, k)
      requires IsHead(chain, p, Head(startLt, startHash)) && q <= |chain| && endLt == LtAt(chain, q)
      modifies this`requests, storage, storage.db
      ensures Counted(old(requests), old(storage.db.statements))
      ensures r.Err? ==> Failing(old(requests), old(storage.db.statements))
      ensures Tracks(chain, k) && Extends(old(storage.rows), storage.rows, account)
      ensures low <= p && (q <= p ==> q <= low) && (p <= q ==> low == p && r.Err?)
      ensures Filled(old(Stored(chain)), Stored(chain), low, p)
      ensures r.Ok? ==> low < p && IsHead(chain, low, Head(r.value.1, r.value.0))
    {
      var batch := FetchBatch(startHash, endLt);
      if batch.Err? {
        return Err, p;
      }
      var txs := batch.value;
      BatchStaysAbove(chain, account, p, q, txs, startHash);

      var ok;
      ghost var saved;
      ok, saved := storage.SaveTransactions(account, txs);
      SavedSegment(old(storage.rows), chain, account, p, txs[..saved]);
      low := p - saved;
      if !ok {
        return Err, low;
      }
      var last := txs[|txs| - 1];
      return Ok((last.prevHash, last.prevLt)), low;
    }

    /**
      Fills the history from position `p` down to the deeper of `q` and the starting depth. On success
      it is complete; after a failure a block hanging from `p` has been added. A gap that starts below
      its end is an error that changes nothing.
    */
    method SyncHistoryGap(gapHash: Hash, gapLt: nat, gapEndLt: nat,
                          ghost chain: seq<Tx>, ghost k: nat, ghost p: nat, ghost q: nat)
      returns (ok: bool, ghost low: nat)
      requires Tracks(chain, k)
      requires IsHead(chain, p, Head(gapLt, gapHash)) && q <= |chain| && gapEndLt == LtAt(chain, q)
      modifies this`lastLt, this`requests, storage, storage.db
      ensures Counted(old(requests), old(storage.db.statements))
      ensures Tracks(chain, k) && Extends(old(storage.rows), storage.rows, account)
      ensures low <= p && (Max(q, k) <= p ==> Max(q, k) <= low) && (p < Max(q, k) ==> low == p && !ok)
      ensures Filled(old(Stored(chain)), Stored(chain), low, p)
      ensures ok ==> low == Max(q, k)
      ensures p == Max(q, k) ==> ok
      ensures !ok ==> Failing(old(requests), old(storage.db.statements))
      ensures lastLt == if ok && Max(q, k) < p then gapLt else old(lastLt)
    {
      ghost var bottom := Max(q, k);
      LtOrdersPositions(chain, account, q, k);
      var endLt := gapEndLt;
      if endLt < maxDepthLt {
        endLt := maxDepthLt;
      }
      var startHash: Hash, startLt: nat := gapHash, gapLt;
      low := p;
      while true
        invariant Tracks(chain, k) && Extends(old(storage.rows), storage.rows, account)
        invariant endLt == LtAt(chain, bottom)
        invariant low <= p && (bottom <= p ==> bottom <= low) && (p < bottom ==> low == p)
        invariant bottom == low ==> low == p
        invariant IsHead(chain, low, Head(startLt, startHash))
        invariant Filled(old(Stored(chain)), Stored(chain), low, p)
        invariant lastLt == old(lastLt)
        invariant Counted(old(requests), old(storage.db.statements))
        decreases low
      {
        LtOrdersPositions(chain, account, low, bottom);
        if startLt == endLt {
          return true, low;
        }
        ghost var next;
        var r;
        r, next := SyncGapIteration(startHash, startLt, endLt, chain, k, low, bottom);
        low := next;
        if r.Err? {
          return false, low;
        }
        LtOrdersPositions(chain, account, low, bottom);
        if r.value.1 <= endLt {
          break;
        }
        startHash, startLt := r.value.0, r.value.1;
      }
      lastLt := gapLt;
      ok := true;
    }

    /** The worker is where the step machine has `loader` with `l` as the position of `lastLt`. */
    ghost predicate Stands(chain: seq<Tx>, k: nat, loader: Loader, l: nat)
      reads this`lastLt, storage
    {
      && Tracks(chain, k)
      && l <= |chain| && lastLt == LtAt(chain, l)
      && LoaderInvariant(k, |chain|, Stored(chain), loader)
    }

    /** Nothing is missing up to the newest stored transaction, and `lastLt` is not above that. */
    ghost predicate NoHole(chain: seq<Tx>, k: nat, l: nat)
      reads storage
    {
      exists h: nat :: l <= h <= |chain| && Contiguous(Stored(chain), k, h)
    }

    /** Everything from the starting depth up to position `n` is stored. */
    ghost predicate StoredTo(chain: seq<Tx>, k: nat, n: nat)
      reads storage
    {
      forall i: nat :: k <= i < n ==> i in Stored(chain)
    }

    /** GetGaps, tried twice, with the position of every gap and of the newest stored lt. */
    method QueryGaps(ghost chain: seq<Tx>, ghost k: nat)
      returns (found: Result<(seq<Gap>, nat)>, ghost places: seq<(nat, nat)>, ghost l: nat)
      requires Tracks(chain, k) && LoaderInvariant(k, |chain|, Stored(chain), Starting)
      modifies storage.db
      ensures old(storage.db.statements) <= storage.db.statements
      ensures found.Err? ==> storage.db.Trouble(old(storage.db.statements), storage.db.statements)
      ensures found.Ok? ==> |places| == |found.value.0|
      ensures found.Ok? ==> forall i :: 0 <= i < |places| ==> IsGapAt(chain, found.value.0[i], places[i])
      ensures found.Ok? ==> l <= |chain| && found.value.1 == LtAt(chain, l)
      ensures found.Ok? ==> Start(|chain|, Stored(chain), Starting, Stored(chain), Running(places, l, None))
    {
      places, l := [], 0;
      ghost var orphans;
      found, orphans := storage.GetGaps(account);
      if found.Err? {
        found, orphans := storage.GetGaps(account);
      }
      if found.Ok? {
        places, l := QueryIsStart(storage.rows, chain, account, k, orphans, found.value.0, found.value.1);
      }
    }

    /** Refills the next gap of the queue: it is taken, and its rows are saved one after the other. */
    method Refill(gap: Gap, ghost queue: seq<(nat, nat)>, ghost chain: seq<Tx>, ghost k: nat, ghost l0: nat)
      returns (ok: bool, ghost l: nat, ghost trace: seq<Situation>, ghost final: Loader)
      requires queue != [] && IsGapAt(chain, gap, queue[0])
      requires Stands(chain, k, Running(queue, l0, None), l0)
      modifies this`lastLt, this`requests, storage, storage.db
      ensures Counted(old(requests), old(storage.db.statements))
      ensures Stands(chain, k, final, l) && Extends(old(storage.rows), storage.rows, account)
      ensures Leads(k, |chain|, trace, (old(Stored(chain)), Running(queue, l0, None)), (Stored(chain), final))
      ensures ok ==> final == Running(queue[1..], l, None)
      ensures !ok ==> Failing(old(requests), old(storage.db.statements))
    {
      ghost var from := (Stored(chain), Running(queue, l0, None));
      ghost var p, bottom := queue[0].0, Max(queue[0].1, k);
      GapsCanBeTaken(k, |chain|, from.0, from.1);
      ghost var begun := Running(queue[1..], l0, if p == bottom then None else Some(Job(p, p, bottom)));
      assert TakeGap(k, from.0, from.1, from.0, begun);
      ghost var low;
      ok, low := SyncHistoryGap(gap.startHash, gap.startLt, gap.endLt, chain, k, p, queue[0].1);
      l := if ok && bottom < p then p else l0;
      ghost var rest;
      rest, final := SyncLeads(k, |chain|, queue[1..], l0, p, bottom, from.0, Stored(chain), low, ok);
      trace := [from] + rest;
      StepLeads(k, |chain|, from, (from.0, begun), rest, (Stored(chain), final));
      LeadsKeepsInvariant(k, |chain|, trace, from, (Stored(chain), final));
    }

    /**
      The start of Run: refills the gaps found in the table. What it does is a sequence of single
      steps, whether it gets through or stops anywhere. So whatever well-shaped table the previous
      process left behind, a well-shaped table remains; success leaves no hole.
    */
    method Recover(ghost chain: seq<Tx>, ghost k: nat)
      returns (ok: bool, ghost l: nat, ghost trace: seq<Situation>, ghost final: Loader)
      requires Tracks(chain, k) && LoaderInvariant(k, |chain|, Stored(chain), Starting)
      modifies this`lastLt, this`requests, storage, storage.db
      ensures Counted(old(requests), old(storage.db.statements))
      ensures Tracks(chain, k) && Extends(old(storage.rows), storage.rows, account)
      ensures Leads(k, |chain|, trace, (old(Stored(chain)), Starting), (Stored(chain), final))
      ensures LoaderInvariant(k, |chain|, Stored(chain), final)
      ensures ok ==> final == Running([], l, None) && Stands(chain, k, final, l) && NoHole(chain, k, l)
      ensures !ok ==> Failing(old(requests), old(storage.db.statements))
    {
      ghost var from := (Stored(chain), Starting);
      trace, final := [from], Starting;
      ghost var places;
      var found;
      found, places, l := QueryGaps(chain, k);
      if found.Err? {
        return false, l, trace, final;
      }
      var gaps := found.value.0;
      lastLt := found.value.1;
      trace, final := [from, (from.0, Running(places, l, None))], Running(places, l, None);
      LeadsKeepsInvariant(k, |chain|, trace, from, (from.0, final));
      for i := 0 to |gaps|
        invariant Stands(chain, k, final, l) && Extends(old(storage.rows), storage.rows, account)
        invariant Leads(k, |chain|, trace, from, (Stored(chain), final))
        invariant final == Running(places[i..], l, None)
        invariant Counted(old(requests), old(storage.db.statements))
      {
        ghost var before := (Stored(chain), final);
        ghost var more;
        ok, l, more, final := Refill(gaps[i], places[i..], chain, k, l);
        LeadsJoined(k, |chain|, trace, more, from, before, (Stored(chain), final));
        trace := trace + more[1..];
        if !ok {
          return false, l, trace, final;
        }
      }
      RefreshingIsContiguous(k, |chain|, Stored(chain), final);
      ok := true;
    }

    /**
      One pass of the refresh loop. `head` is the reported state of the account, a real one. A state
      older than `lastLt` is refused before anything is written, like one that could not be had or
      recorded; a panic takes a newer state, and a server or database that fails during the sync. One
      older than the starting depth of an account without history is a panic that writes nothing.
    */
    method RefreshAccount(head: Result<Head>, ghost n: nat, ghost chain: seq<Tx>, ghost k: nat, ghost l: nat)
      returns (outcome: Outcome, ghost l': nat, ghost trace: seq<Situation>, ghost final: Loader)
      requires Stands(chain, k, Running([], l, None), l)
      requires head.Ok? ==> IsHead(chain, n, head.value)
      modifies this`lastLt, this`requests, storage, storage.db
      ensures Counted(old(requests), old(storage.db.statements))
      ensures Stands(chain, k, final, l') && Extends(old(storage.rows), storage.rows, account)
      ensures Leads(k, |chain|, trace, (old(Stored(chain)), Running([], l, None)), (Stored(chain), final))
      ensures !outcome.Panicked? ==> final == Running([], l', None) && NoHole(chain, k, l')
      ensures outcome.Failed? <==>
                || head.Err?
                || head.value.lt < old(lastLt)
                || storage.db.replies(old(storage.db.statements)) != Done
      ensures outcome.Panicked? ==> head.Ok? && old(lastLt) <= head.value.lt
      ensures outcome.Panicked? ==> Failing(old(requests), old(storage.db.statements))
      ensures outcome.Failed? ==> l' == l && Stored(chain) == old(Stored(chain))
      ensures outcome.Synced? ==> head.Ok? && Max(l, k) <= n && l' == (if n == k then l else n)
      ensures outcome.Synced? ==> Filled(old(Stored(chain)), Stored(chain), Max(l, k), n)
      ensures head.Ok? && n < k && outcome.Panicked? ==> Stored(chain) == old(Stored(chain))
      ensures old(Stored(chain)) <= Stored(chain)
      ensures head.Ok? && !outcome.Panicked? && Reliable(old(storage.db.statements)) ==> StoredTo(chain, k, n)
    {
      ghost var from := (Stored(chain), Running([], l, None));
      RefreshingIsContiguous(k, |chain|, from.0, from.1);
      l', trace, final := l, [from], from.1;
      if head.Err? {
        return Failed, l', trace, final;
      }
      LtOrdersPositions(chain, account, n, l);
      if head.value.lt < lastLt {
        return Failed, l', trace, final;
      }
      var recorded := storage.db.Exec();
      if !recorded {
        return Failed, l', trace, final;
      }
      ghost var bottom := Max(l, k);
      ghost var low;
      var ok;
      ok, low := SyncHistoryGap(head.value.hash, head.value.lt, lastLt, chain, k, n, l);
      outcome := if ok then Synced else Panicked;
      l' := if ok && bottom < n then n else l;
      if bottom <= n {
        ghost var begun := Running([], l, if n == bottom then None else Some(Job(n, n, bottom)));
        assert Refresh(k, n, from.0, from.1, from.0, begun);
        ghost var rest;
        rest, final := SyncLeads(k, |chain|, [], l, n, bottom, from.0, Stored(chain), low, ok);
        trace := [from] + rest;
        StepLeads(k, |chain|, from, (from.0, begun), rest, (Stored(chain), final));
        LeadsKeepsInvariant(k, |chain|, trace, from, (Stored(chain), final));
        if ok {
          RefreshingIsContiguous(k, |chain|, Stored(chain), final);
        }
      } else {
        assert Stored(chain) == from.0;
      }
    }

    /** Any number of refresh passes, ending at a panic. */
    method RefreshAll(heads: seq<Result<Head>>, ghost positions: seq<nat>,
                      ghost chain: seq<Tx>, ghost k: nat, ghost l0: nat)
      returns (panicked: bool, ghost l: nat, ghost trace: seq<Situation>, ghost final: Loader)
      requires Stands(chain, k, Running([], l0, None), l0)
      requires |positions| == |heads|
      requires forall i :: 0 <= i < |heads| && heads[i].Ok? ==> IsHead(chain, positions[i], heads[i].value)
      modifies this`lastLt, this`requests, storage, storage.db
      ensures Counted(old(requests), old(storage.db.statements))
      ensures Stands(chain, k, final, l) && Extends(old(storage.rows), storage.rows, account)
      ensures Leads(k, |chain|, trace, (old(Stored(chain)), Running([], l0, None)), (Stored(chain), final))
      ensures !panicked ==> final == Running([], l, None)
      ensures panicked ==> Failing(old(requests), old(storage.db.statements))
      ensures !panicked && Reliable(old(storage.db.statements)) ==>
                forall i :: 0 <= i < |heads| && heads[i].Ok? ==> StoredTo(chain, k, positions[i])
    {
      ghost var from := (Stored(chain), Running([], l0, None));
      l, trace, final := l0, [from], from.1;
      ghost var reached := 0;
      for i := 0 to |heads|
        invariant Extends(old(storage.rows), storage.rows, account)
        invariant Counted(old(requests), old(storage.db.statements))
        invariant Leads(k, |chain|, trace, from, (Stored(chain), final))
        invariant Stands(chain, k, final, l) && final == Running([], l, None)
        invariant Reliable(old(storage.db.statements)) ==> StoredTo(chain, k, reached)
        invariant Reliable(old(storage.db.statements)) ==> NoneAbove(heads, positions, i, reached)
      {
        ghost var before := (Stored(chain), final);
        ghost var more;
        var outcome;
        outcome, l, more, final := RefreshAccount(heads[i], positions[i], chain, k, l);
        LeadsJoined(k, |chain|, trace, more, from, before, (Stored(chain), final));
        trace := trace + more[1..];
        if outcome.Panicked? {
          return true, l, trace, final;
        }
        if heads[i].Ok? {
          reached := Max(reached, positions[i]);
        }
      }
      panicked := false;
    }

    /**
      A whole life of the loader: recovery, then any number of refresh passes, ending at a panic or
      when the process stops. It is a sequence of single steps, so the next life starts from a
      well-shaped table. Unless something failed, it has reached every state that was reported.
    */
    method Run(heads: seq<Result<Head>>, ghost positions: seq<nat>, ghost chain: seq<Tx>, ghost k: nat)
      returns (panicked: bool, ghost l: nat, ghost trace: seq<Situation>, ghost final: Loader)
      requires Tracks(chain, k) && LoaderInvariant(k, |chain|, Stored(chain), Starting)
      requires |positions| == |heads|
      requires forall i :: 0 <= i < |heads| && heads[i].Ok? ==> IsHead(chain, positions[i], heads[i].value)
      modifies this`lastLt, this`requests, storage, storage.db
      ensures Counted(old(requests), old(storage.db.statements))
      ensures Tracks(chain, k) && Extends(old(storage.rows), storage.rows, account)
      ensures Leads(k, |chain|, trace, (old(Stored(chain)), Starting), (Stored(chain), final))
      ensures LoaderInvariant(k, |chain|, Stored(chain), Starting)
      ensures !panicked ==> final == Running([], l, None) && l <= |chain| && lastLt == LtAt(chain, l)
      ensures !panicked ==> NoHole(chain, k, l)
      ensures panicked ==> Failing(old(requests), old(storage.db.statements))
      ensures !panicked && Reliable(old(storage.db.statements)) ==>
                forall i :: 0 <= i < |heads| && heads[i].Ok? ==> StoredTo(chain, k, positions[i])
    {
      ghost var from := (Stored(chain), Starting);
      panicked := true;
      var ok;
      ok, l, trace, final := Recover(chain, k);
      if ok {
        ghost var mid := (Stored(chain), final);
        ghost var more;
        panicked, l, more, final := RefreshAll(heads, positions, chain, k, l);
        LeadsJoined(k, |chain|, trace, more, from, mid, (Stored(chain), final));
        trace := trace + more[1..];
      }
      CrashKeepsInvariant(k, |chain|, |chain|, Stored(chain), final);
      if !panicked {
        RefreshingIsContiguous(k, |chain|, Stored(chain), final);
      }
    }
  }

  /** `gap` has its ends at the positions `at`, which are those of the hole below the stored transaction `orphan`. */
  ghost predicate Placed(rows: Rows, chain: seq<Tx>, orphan: Hash, gap: Gap, at: (nat, nat)) {
    && IsGapAt(chain, gap, at) && IsGap(Held(rows, chain), at)
    && at.0 < |chain| && orphan == Digest(chain[at.0])
  }

  /** The positions of all gaps reported for a well-shaped table. */
  lemma {:induction false} GapPositions(rows: Rows, chain: seq<Tx>, account: Address, k: nat, e: nat, s: nat, h: nat,
                                        orphans: seq<Hash>, gaps: seq<Gap>)
    returns (places: seq<(nat, nat)>)
    requires IsChain(chain, account) && Faithful(rows, chain, account)
    requires Shape(Held(rows, chain), k, e, s, h)
    requires |orphans| == |gaps|
    requires forall i :: 0 <= i < |gaps| ==> Reports(rows, account, orphans[i], gaps[i])
    ensures |places| == |gaps|
    ensures forall i :: 0 <= i < |gaps| ==> Placed(rows, chain, orphans[i], gaps[i], places[i])
    decreases |gaps|
  {
    if gaps == [] {
      places := [];
    } else {
      var n := |gaps| - 1;
      places := GapPositions(rows, chain, account, k, e, s, h, orphans[..n], gaps[..n]);
      var g, q := GapPosition(rows, chain, account, k, e, s, h, orphans[n], gaps[n]);
      places := places + [(g, q)];
    }
  }

  /** Whatever is unjoined is among them. */
  lemma UnjoinedIsListed(rows: Rows, chain: seq<Tx>, account: Address,
                         orphans: seq<Hash>, gaps: seq<Gap>, places: seq<(nat, nat)>, i: nat)
    requires IsChain(chain, account) && Faithful(rows, chain, account)
    requires forall o :: o in orphans <==> Orphan(rows, account, o)
    requires |places| == |orphans| == |gaps|
    requires forall j :: 0 <= j < |places| ==> Placed(rows, chain, orphans[j], gaps[j], places[j])
    requires Unjoined(Held(rows, chain), i)
    ensures StartsAt(places, i)
  {
    OrphansAreUnjoined(rows, chain, account, i);
    var j :| 0 <= j < |orphans| && orphans[j] == Digest(chain[i]);
    PositionsDistinct(chain, account, places[j].0, i);
  }

  /** None of the first `i` reported states is above position `reached`. */
  ghost predicate NoneAbove(heads: seq<Result<Head>>, positions: seq<nat>, i: nat, reached: nat) {
    i <= |heads| == |positions| && forall j :: 0 <= j < i && heads[j].Ok? ==> positions[j] <= reached
  }

  /** What the query brings is the starting step. */
  lemma QueryIsStart(rows: Rows, chain: seq<Tx>, account: Address, k: nat,
                     orphans: seq<Hash>, gaps: seq<Gap>, lastLt: nat)
    returns (places: seq<(nat, nat)>, l: nat)
    requires IsChain(chain, account) && Faithful(rows, chain, account)
    requires LoaderInvariant(k, |chain|, Held(rows, chain), Starting)
    requires |orphans| == |gaps|
    requires forall o :: o in orphans <==> Orphan(rows, account, o)
    requires forall i :: 0 <= i < |gaps| ==> Reports(rows, account, orphans[i], gaps[i])
    requires Newest(rows, account, None, lastLt)
    ensures |places| == |gaps| && forall i :: 0 <= i < |places| ==> IsGapAt(chain, gaps[i], places[i])
    ensures l <= |chain| && lastLt == LtAt(chain, l)
    ensures Start(|chain|, Held(rows, chain), Starting, Held(rows, chain), Running(places, l, None))
  {
    var held := Held(rows, chain);
    var e: nat, s: nat, h: nat :| InStep(k, |chain|, held, Starting, e, s, h);
    places := GapPositions(rows, chain, account, k, e, s, h, orphans, gaps);
    forall i: nat | Unjoined(held, i)
      ensures StartsAt(places, i)
    {
      UnjoinedIsListed(rows, chain, account, orphans, gaps, places, i);
    }
    l := if k < h then h else 0;
    NewestPosition(rows, chain, account, None, |chain|, l, lastLt);
  }

  /** `gap` has its ends at the positions `at`. */
  ghost predicate IsGapAt(chain: seq<Tx>, gap: Gap, at: (nat, nat)) {
    && IsHead(chain, at.0, Head(gap.startLt, gap.startHash))
    && at.1 <= |chain| && gap.endLt == LtAt(chain, at.1)
  }

  /** A batch that passed the check lies between the positions asked for, and is empty when those are reversed. */
  lemma BatchStaysAbove(chain: seq<Tx>, account: Address, p: nat, q: nat, txs: seq<Tx>, hash: Hash)
    requires IsChain(chain, account) && p <= |chain| && q <= |chain| && EndsWith(chain, p, hash)
    requires Verified(txs, hash, LtAt(chain, q)) && |txs| > 0
    ensures BackwardSegment(chain, p, txs) && q <= p - |txs|
    ensures IsHead(chain, p - |txs|, Head(txs[|txs| - 1].prevLt, txs[|txs| - 1].prevHash))
  {
    var n := |txs|;
    var answer :| txs <= answer && CutsAt(answer, hash, LtAt(chain, q), n);
    assert answer[..n] == txs;
    AcceptedIsChainSegment(chain, account, p, answer, hash, LtAt(chain, q), n);
    LtOrdersPositions(chain, account, q, p - n + 1);
    assert txs[n - 1] == chain[p - n];
    assert Linked(chain, account, p - n);
  }
}
