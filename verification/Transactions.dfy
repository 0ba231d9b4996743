/** The table of stored transactions and the queries on it (pkg/db/transactions.go). */
module Transactions {
  import opened Wrappers
  import opened Connections
  import opened Chain
  import opened Client

  /** A stored row; the primary key of the table is the hash of the transaction. */
  datatype Row = Row(accountId: Address, tx: Tx)

  type Rows = map<Hash, Row>

  /** A hole: history is missing from `startLt` (whose hash is known) down to `endLt`. */
  datatype Gap = Gap(startLt: nat, startHash: Hash, endLt: nat)

  /** INSERT ... ON CONFLICT (hash) DO NOTHING. */
  function Insert(rows: Rows, account: Address, tx: Tx): Rows {
    if Digest(tx) in rows then rows else rows[Digest(tx) := Row(account, tx)]
  }

  function InsertAll(rows: Rows, account: Address, txs: seq<Tx>): Rows {
    if txs == [] then rows
    else Insert(InsertAll(rows, account, txs[..|txs| - 1]), account, txs[|txs| - 1])
  }

  /** `h` is the key of a row of `account` whose predecessor is neither stored nor the start of the account. */
  ghost predicate Orphan(rows: Rows, account: Address, h: Hash) {
    && h in rows
    && rows[h].accountId == account
    && rows[h].tx.prevHash !in rows
    && rows[h].tx.prevLt != 0
  }

  /** `h` is the key of a row of `account` below `bound`. */
  ghost predicate Below(rows: Rows, account: Address, bound: Option<nat>, h: Hash) {
    && h in rows
    && rows[h].accountId == account
    && (bound.Some? ==> rows[h].tx.lt < bound.value)
  }

  /** `lt` is the largest lt stored for `account` below `bound`, or 0 when there is none. */
  ghost predicate Newest(rows: Rows, account: Address, bound: Option<nat>, lt: nat) {
    && (forall h :: Below(rows, account, bound, h) ==> rows[h].tx.lt <= lt)
    && (lt == 0 || exists h :: Below(rows, account, bound, h) && rows[h].tx.lt == lt)
  }

  /** `gap` reports the hole under the orphan `h`. */
  ghost predicate Reports(rows: Rows, account: Address, h: Hash, gap: Gap) {
    && Orphan(rows, account, h)
    && gap.startLt == rows[h].tx.prevLt
    && gap.startHash == rows[h].tx.prevHash
    && Newest(rows, account, Some(gap.startLt), gap.endLt)
  }

  class TransactionTable {
    const db: Connection
    var rows: Rows

    constructor (db: Connection)
      ensures this.db == db && rows == map[]
    {
      this.db, rows := db, map[];
    }

    /** Saves row by row: a failure (or the death of the process) leaves a prefix behind. */
    method SaveTransactions(account: Address, txs: seq<Tx>) returns (ok: bool, ghost saved: nat)
      modifies this`rows, db
      ensures old(db.statements) <= db.statements
      ensures ok <==> !db.Trouble(old(db.statements), db.statements)
      ensures saved <= |txs| && (ok ==> saved == |txs|)
      ensures rows == InsertAll(old(rows), account, txs[..saved])
    {
      saved := 0;
      for i := 0 to |txs|
        invariant saved == i
        invariant rows == InsertAll(old(rows), account, txs[..i])
        invariant old(db.statements) <= db.statements && !db.Trouble(old(db.statements), db.statements)
      {
        var reply := db.Send();
        if reply == Refused {
          return false, i;
        }
        rows := Insert(rows, account, txs[i]);
        assert txs[..i + 1][..i] == txs[..i];
        saved := i + 1;
        if reply == Unanswered {
          return false, saved;
        }
      }
      assert txs[..|txs|] == txs;
      ok := true;
    }

    /** The row whose predecessor has the given lt; `Ok(None)` is "not found", `Err` a failed query. */
    method GetTransactionByParentLt(account: Address, lt: nat) returns (r: Result<Option<Tx>>)
      modifies db
      ensures db.statements == old(db.statements) + 1
      ensures r.Ok? <==> db.replies(old(db.statements)) == Done
      ensures r.Ok? && r.value.Some? ==>
                exists h :: h in rows && rows[h].accountId == account
                            && rows[h].tx.prevLt == lt && rows[h].tx == r.value.value
      ensures r.Ok? && r.value.None? ==>
                forall h :: h in rows && rows[h].accountId == account ==> rows[h].tx.prevLt != lt
    {
      var ok := db.Exec();
      if !ok {
        return Err;
      }
      var todo := rows.Keys;
      while todo != {}
        invariant todo <= rows.Keys
        invariant forall h :: h in rows && h !in todo && rows[h].accountId == account ==> rows[h].tx.prevLt != lt
        decreases todo
      {
        var h :| h in todo;
        if rows[h].accountId == account && rows[h].tx.prevLt == lt {
          return Ok(Some(rows[h].tx));
        }
        todo := todo - {h};
      }
      return Ok(None);
    }

    /** SELECT lt ... WHERE lt < bound ORDER BY lt DESC LIMIT 1, with 0 for no row. */
    method NewestLt(account: Address, bound: Option<nat>) returns (r: Result<nat>)
      modifies db
      ensures db.statements == old(db.statements) + 1
      ensures r.Ok? <==> !db.Trouble(old(db.statements), db.statements)
      ensures r.Ok? ==> Newest(rows, account, bound, r.value)
    {
      var ok := db.Exec();
      if !ok {
        return Err;
      }
      var lt := 0;
      var todo := rows.Keys;
      while todo != {}
        invariant todo <= rows.Keys
        invariant forall h :: h !in todo && Below(rows, account, bound, h) ==> rows[h].tx.lt <= lt
        invariant lt == 0 || exists h :: Below(rows, account, bound, h) && rows[h].tx.lt == lt
        decreases todo
      {
        var h :| h in todo;
        if rows[h].accountId == account && (bound.None? || rows[h].tx.lt < bound.value) && lt <= rows[h].tx.lt {
          lt := rows[h].tx.lt;
          assert Below(rows, account, bound, h);
        }
        todo := todo - {h};
      }
      return Ok(lt);
    }

    /** One gap per orphan, in any order, and the newest stored lt. */
    method GetGaps(account: Address) returns (r: Result<(seq<Gap>, nat)>, ghost orphans: seq<Hash>)
      modifies db
      ensures old(db.statements) <= db.statements
      ensures r.Ok? <==> !db.Trouble(old(db.statements), db.statements)
      ensures r.Ok? ==> |orphans| == |r.value.0|
      ensures r.Ok? ==> forall h :: h in orphans <==> Orphan(rows, account, h)
      ensures r.Ok? ==> forall i, j :: 0 <= i < j < |orphans| ==> orphans[i] != orphans[j]
      ensures r.Ok? ==> forall i :: 0 <= i < |orphans| ==> Reports(rows, account, orphans[i], r.value.0[i])
      ensures r.Ok? ==> Newest(rows, account, None, r.value.1)
    {
      orphans := [];
      var ok := db.Exec();
      if !ok {
        return Err, [];
      }
      var gaps: seq<Gap> := [];
      var todo := rows.Keys;
      while todo != {}
        invariant todo <= rows.Keys
        invariant |orphans| == |gaps|
        invariant forall h :: h in orphans <==> Orphan(rows, account, h) && h !in todo
        invariant forall i, j :: 0 <= i < j < |orphans| ==> orphans[i] != orphans[j]
        invariant forall i :: 0 <= i < |gaps| ==>
                    gaps[i] == Gap(rows[orphans[i]].tx.prevLt, rows[orphans[i]].tx.prevHash, 0)
        decreases todo
      {
        var h :| h in todo;
        var row := rows[h];
        if row.accountId == account && row.tx.prevHash !in rows && row.tx.prevLt != 0 {
          gaps := gaps + [Gap(row.tx.prevLt, row.tx.prevHash, 0)];
          orphans := orphans + [h];
        }
        todo := todo - {h};
      }
      for i := 0 to |gaps|
        invariant |orphans| == |gaps|
        invariant old(db.statements) <= db.statements && !db.Trouble(old(db.statements), db.statements)
        invariant forall j :: 0 <= j < i ==> Reports(rows, account, orphans[j], gaps[j])
        invariant forall j :: i <= j < |gaps| ==>
                    gaps[j] == Gap(rows[orphans[j]].tx.prevLt, rows[orphans[j]].tx.prevHash, 0)
      {
        var endLt := NewestLt(account, Some(gaps[i].startLt));
        if endLt.Err? {
          return Err, [];
        }
        assert Orphan(rows, account, orphans[i]);
        gaps := gaps[i := gaps[i].(endLt := endLt.value)];
      }
      var lastLt := NewestLt(account, None);
      if lastLt.Err? {
        return Err, [];
      }
      return Ok((gaps, lastLt.value)), orphans;
    }
  }

  // Reading the table along a chain

  /** `after` is `before` with the positions `lo`, ..., `hi - 1` filled in. */
  ghost predicate Filled(before: set<nat>, after: set<nat>, lo: nat, hi: nat) {
    forall i: nat :: i in after <==> i in before || lo <= i < hi
  }

  /** The positions of `chain` that are stored. */
  ghost function Held(rows: Rows, chain: seq<Tx>): set<nat> {
    set i: nat | i < |chain| && Digest(chain[i]) in rows
  }

  ghost predicate InChain(chain: seq<Tx>, tx: Tx) {
    exists i :: 0 <= i < |chain| && chain[i] == tx
  }

  /** Keys are the hashes of their rows, and `account` owns exactly rows of its own chain. */
  ghost predicate Faithful(rows: Rows, chain: seq<Tx>, account: Address) {
    && (forall h :: h in rows ==> h == Digest(rows[h].tx))
    && (forall h :: h in rows && rows[h].accountId == account ==> InChain(chain, rows[h].tx))
    && (forall i :: 0 <= i < |chain| && Digest(chain[i]) in rows ==> rows[Digest(chain[i])].accountId == account)
  }

  function Max(a: nat, b: nat): nat {
    if a < b then b else a
  }

  /** No row is lost or changed, and every new row belongs to `account`. */
  ghost predicate Extends(before: Rows, after: Rows, account: Address) {
    && (forall h :: h in before ==> h in after && after[h] == before[h])
    && (forall h :: h in after && h !in before ==> after[h].accountId == account)
  }

  /** Saving a verified answer adds exactly its positions, and touches no row of another account. */
  lemma {:induction false} SavedSegment(rows: Rows, chain: seq<Tx>, account: Address, p: nat, txs: seq<Tx>)
    requires IsChain(chain, account) && Faithful(rows, chain, account)
    requires p <= |chain| && BackwardSegment(chain, p, txs)
    ensures Faithful(InsertAll(rows, account, txs), chain, account)
    ensures Filled(Held(rows, chain), Held(InsertAll(rows, account, txs), chain), p - |txs|, p)
    ensures Extends(rows, InsertAll(rows, account, txs), account)
    decreases |txs|
  {
    if txs != [] {
      var n := |txs| - 1;
      SavedSegment(rows, chain, account, p, txs[..n]);
      var before := InsertAll(rows, account, txs[..n]);
      var after := InsertAll(rows, account, txs);
      assert txs[n] == chain[p - 1 - n];
      forall i: nat | i < |chain|
        ensures i in Held(after, chain) <==> i in Held(before, chain) || i == p - 1 - n
      {
        PositionsDistinct(chain, account, i, p - 1 - n);
      }
    }
  }

  /**
    The only shape the stored history of an account ever has: the interval `[k, e)` right above the
    starting depth `k`, and at most one more interval `[s, h)` higher up. There is a hole iff `e < s`.
  */
  ghost predicate Shape(held: set<nat>, k: nat, e: nat, s: nat, h: nat) {
    && k <= e <= s <= h
    && (e < s ==> s < h)
    && forall i: nat :: i in held <==> k <= i < e || s <= i < h
  }

  /** Everything between the starting depth `k` and `h` is stored, and nothing else. */
  ghost predicate Contiguous(held: set<nat>, k: nat, h: nat) {
    Shape(held, k, h, h, h)
  }

  /** `q` is the position of the newest stored transaction among the first `m`. */
  ghost predicate NewestBelow(stored: set<nat>, m: nat, q: nat) {
    && q <= m
    && (q > 0 ==> q - 1 in stored)
    && forall i: nat :: i in stored && i < m ==> i < q
  }

  /** A stored transaction without stored predecessor. */
  ghost predicate Unjoined(stored: set<nat>, i: nat) {
    i in stored && i > 0 && i - 1 !in stored
  }

  /** An unjoined transaction and the newest stored one below the hole under it. */
  ghost predicate IsGap(stored: set<nat>, gap: (nat, nat)) {
    Unjoined(stored, gap.0) && NewestBelow(stored, gap.0, gap.1)
  }

  /** Among the positions below `m`, the stored ones end with position `q - 1`. */
  lemma NewestPosition(
      rows: Rows, chain: seq<Tx>, account: Address, bound: Option<nat>, m: nat, q: nat, lt: nat)
    requires IsChain(chain, account) && Faithful(rows, chain, account)
    requires m <= |chain| && NewestBelow(Held(rows, chain), m, q)
    requires forall i: nat :: i < |chain| ==> (i < m <==> bound.None? || chain[i].lt < bound.value)
    requires Newest(rows, account, bound, lt)
    ensures lt == LtAt(chain, q)
  {
    if q > 0 {
      assert Below(rows, account, bound, Digest(chain[q - 1]));
      assert Linked(chain, account, q - 1);
    }
    if lt != 0 {
      var h :| Below(rows, account, bound, h) && rows[h].tx.lt == lt;
      var i :| 0 <= i < |chain| && chain[i] == rows[h].tx;
      assert i in Held(rows, chain);
      LtIncreases(chain, account, i + 1, q);
    }
  }

  /** The orphans of the query are the stored transactions without stored predecessor, but for the very first. */
  lemma OrphansAreUnjoined(rows: Rows, chain: seq<Tx>, account: Address, i: nat)
    requires IsChain(chain, account) && Faithful(rows, chain, account) && i < |chain|
    ensures Orphan(rows, account, Digest(chain[i])) <==> Unjoined(Held(rows, chain), i)
  {
    assert Linked(chain, account, i);
    if i > 0 {
      assert Linked(chain, account, i - 1);
    }
  }

  /** Every reported gap is one in terms of positions: the hash and lt where it starts, and the lt where it ends. */
  lemma GapPosition(rows: Rows, chain: seq<Tx>, account: Address, k: nat, e: nat, s: nat, h: nat,
                    orphan: Hash, gap: Gap)
    returns (g: nat, q: nat)
    requires IsChain(chain, account) && Faithful(rows, chain, account)
    requires Shape(Held(rows, chain), k, e, s, h)
    requires Reports(rows, account, orphan, gap)
    ensures g < |chain| && orphan == Digest(chain[g]) && IsGap(Held(rows, chain), (g, q))
    ensures gap.startLt == LtAt(chain, g) && EndsWith(chain, g, gap.startHash) && gap.endLt == LtAt(chain, q)
  {
    g :| 0 <= g < |chain| && chain[g] == rows[orphan].tx;
    OrphansAreUnjoined(rows, chain, account, g);
    assert Linked(chain, account, g);
    q := if g == s && k < e < s then e else 0;
    if q > 0 {
      assert q - 1 in Held(rows, chain);
    }
    forall i: nat | i < |chain|
      ensures i < g - 1 <==> chain[i].lt < gap.startLt
    {
      LtOrdersPositions(chain, account, i + 1, g);
    }
    NewestPosition(rows, chain, account, Some(gap.startLt), g - 1, q, gap.endLt);
  }

  /** In a well-shaped table a gap is the hole with both its ends, or the boundary where nothing is missing. */
  lemma GapsOfShape(held: set<nat>, k: nat, e: nat, s: nat, h: nat, gap: (nat, nat))
    requires Shape(held, k, e, s, h) && IsGap(held, gap)
    ensures (e < s && gap.0 == s && Max(gap.1, k) == e) || gap.0 == k == Max(gap.1, k)
  {
    if gap.0 != k && k < e {
      assert e - 1 in held;
    }
  }

  lemma OfItsAccount(chain: seq<Tx>, account: Address, tx: Tx)
    requires IsChain(chain, account)
    ensures InChain(chain, tx) ==> tx.account == account
  {
    if InChain(chain, tx) {
      var i :| 0 <= i < |chain| && chain[i] == tx;
      assert Linked(chain, account, i);
    }
  }

  /** Loaders share the table, but saving for one account changes nothing in the history of another. */
  lemma OtherHistoryUntouched(before: Rows, after: Rows, chain: seq<Tx>, account: Address,
                              otherChain: seq<Tx>, other: Address)
    requires account != other && Extends(before, after, account)
    requires IsChain(chain, account) && Faithful(after, chain, account)
    requires IsChain(otherChain, other) && Faithful(before, otherChain, other)
    ensures Faithful(after, otherChain, other)
    ensures Held(after, otherChain) == Held(before, otherChain)
  {
    forall tx
      ensures InChain(chain, tx) ==> tx.account == account
      ensures InChain(otherChain, tx) ==> tx.account == other
    {
      OfItsAccount(chain, account, tx);
      OfItsAccount(otherChain, other, tx);
    }
    forall i | 0 <= i < |otherChain| && Digest(otherChain[i]) in after
      ensures Digest(otherChain[i]) in before
    {
      assert InChain(otherChain, otherChain[i]);
    }
  }
}
