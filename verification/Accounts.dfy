/**
  Which accounts the service tracks (cmd/api/accounts.go, pkg/db/accounts.go): the stored ones are
  reconciled with the configured currencies at every start.
*/
module Accounts {
  import opened Wrappers
  import opened Connections
  import opened Chain
  import opened Payments

  datatype AccountRow = AccountRow(startLt: nat, lastProcessedLt: nat)

  datatype Wallet = Wallet(address: Address, owner: Address, master: Address)

  type Tracking = map<Address, AccountInfo>

  /** The two tables. */
  datatype Tables = Tables(rows: map<Address, AccountRow>, wallets: set<Wallet>)

  /** The jetton wallets of the recipient are those the chain gives it, each with its account row. */
  ghost predicate Consistent(t: Tables, recipient: Address, walletOf: Address -> Address) {
    forall w :: w in t.wallets && w.owner == recipient ==> w.address == walletOf(w.master) && w.address in t.rows
  }

  /** Wallet addresses differ for different jettons, and from the recipient's own. */
  ghost predicate DistinctWallets(recipient: Address, walletOf: Address -> Address) {
    && (forall j: Address :: walletOf(j) != recipient)
    && (forall j: Address, j': Address :: walletOf(j) == walletOf(j') ==> j == j')
  }

  /** The wallet rows that the configuration selects. */
  ghost predicate Selected(t: Tables, recipient: Address, currencies: set<Currency>, w: Wallet) {
    w in t.wallets && w.owner == recipient && Jetton(w.master) in currencies
  }

  /** `info` describes account `a` as the tables have it. */
  ghost predicate Describes(t: Tables, recipient: Address, currencies: set<Currency>, a: Address, info: AccountInfo) {
    && a in t.rows
    && info.maxDepthLt == t.rows[a].startLt
    && info.recipient == recipient
    && (a == recipient ==> info.jetton.None?)
    && (a != recipient ==>
          info.jetton.Some? && Selected(t, recipient, currencies, Wallet(a, recipient, info.jetton.value)))
  }

  /** `m` holds exactly the recipient, if it is stored, and the selected wallets, as stored. */
  ghost predicate IsTracked(t: Tables, recipient: Address, currencies: set<Currency>, m: Tracking) {
    && (forall a :: a in m ==> Describes(t, recipient, currencies, a, m[a]))
    && (recipient in t.rows ==> recipient in m)
    && (forall w :: Selected(t, recipient, currencies, w) ==> w.address in m)
  }

  /** One account for each configured jetton, one for TON, and no others but the recipient. */
  ghost predicate Covers(m: Tracking, recipient: Address, currencies: set<Currency>) {
    && (Ton in currencies ==> recipient in m && m[recipient].jetton.None?)
    && (forall j: Address :: Jetton(j) in currencies ==> exists a :: a in m && m[a].jetton == Some(j))
    && (forall a, b :: a in m && b in m && m[a].jetton == m[b].jetton ==> a == b)
    && (forall a :: a in m ==>
          m[a].recipient == recipient && (m[a].jetton.Some? ==> Jetton(m[a].jetton.value) in currencies)
          && (m[a].jetton.None? ==> a == recipient))
  }

  /** The tables determine what is tracked. */
  lemma TrackedIsUnique(
      t: Tables, recipient: Address, walletOf: Address -> Address, currencies: set<Currency>, m: Tracking, m': Tracking)
    requires DistinctWallets(recipient, walletOf) && Consistent(t, recipient, walletOf)
    requires IsTracked(t, recipient, currencies, m) && IsTracked(t, recipient, currencies, m')
    ensures m == m'
  {
    TrackedIncluded(t, recipient, walletOf, currencies, m, m');
    TrackedIncluded(t, recipient, walletOf, currencies, m', m);
  }

  lemma TrackedIncluded(
      t: Tables, recipient: Address, walletOf: Address -> Address, currencies: set<Currency>, m: Tracking, m': Tracking)
    requires DistinctWallets(recipient, walletOf) && Consistent(t, recipient, walletOf)
    requires IsTracked(t, recipient, currencies, m) && IsTracked(t, recipient, currencies, m')
    ensures forall a :: a in m ==> a in m' && m'[a] == m[a]
  {
    forall a | a in m
      ensures a in m' && m'[a] == m[a]
    {
      assert Describes(t, recipient, currencies, a, m[a]);
      if a != recipient {
        assert Selected(t, recipient, currencies, Wallet(a, recipient, m[a].jetton.value));
      }
      assert Describes(t, recipient, currencies, a, m'[a]);
    }
  }

  class AccountTables {
    const db: Connection
    var rows: map<Address, AccountRow>
    var wallets: set<Wallet>

    constructor (db: Connection)
      ensures this.db == db && Contents() == Tables(map[], {})
    {
      this.db, rows, wallets := db, map[], {};
    }

    function Contents(): Tables
      reads this
    {
      Tables(rows, wallets)
    }

    method GetTrackedAccounts(recipient: Address, currencies: set<Currency>, ghost walletOf: Address -> Address)
      returns (r: Result<Tracking>)
      requires DistinctWallets(recipient, walletOf) && Consistent(Contents(), recipient, walletOf)
      modifies db
      ensures old(db.statements) <= db.statements
      ensures r.Ok? <==> !db.Trouble(old(db.statements), db.statements)
      ensures r.Ok? ==> IsTracked(Contents(), recipient, currencies, r.value)
    {
      var ok := db.Exec();
      if !ok {
        return Err;
      }
      var res: Tracking := map[];
      var todo := set w | w in wallets && w.owner == recipient && Jetton(w.master) in currencies;
      while todo != {}
        invariant forall w :: w in todo ==> Selected(Contents(), recipient, currencies, w)
        invariant forall a :: a in res ==> a != recipient && Describes(Contents(), recipient, currencies, a, res[a])
        invariant forall w :: Selected(Contents(), recipient, currencies, w) ==> w in todo || w.address in res
        decreases todo
      {
        var w :| w in todo;
        assert Selected(Contents(), recipient, currencies, w);
        assert w == Wallet(w.address, recipient, w.master);
        res := res[w.address := AccountInfo(rows[w.address].startLt, recipient, Some(w.master))];
        todo := todo - {w};
      }
      ok := db.Exec();
      if !ok {
        return Err;
      }
      if recipient in rows {
        res := res[recipient := AccountInfo(rows[recipient].startLt, recipient, None)];
      }
      return Ok(res);
    }

    /**
      Fails on an address that is stored already. The indexer will start from the head it is given.
      For a jetton wallet a transaction inserts both rows, after its currency has been looked up.
    */
    method CreateAccount(account: Account) returns (ok: bool)
      modifies this, db
      ensures old(db.statements) <= db.statements
      ensures ok <==> account.id !in old(rows) && !db.Trouble(old(db.statements), db.statements)
      ensures !ok ==> unchanged(this)
      ensures ok ==> rows == old(rows)[account.id := AccountRow(account.info.maxDepthLt, account.info.maxDepthLt)]
      ensures ok ==> wallets ==
                       if account.info.jetton.Some?
                       then old(wallets) + {Wallet(account.id, account.info.recipient, account.info.jetton.value)}
                       else old(wallets)
    {
      for i := 0 to if account.info.jetton.Some? then 5 else 1
        invariant old(db.statements) <= db.statements && !db.Trouble(old(db.statements), db.statements)
        invariant unchanged(this)
      {
        ok := db.Exec();
        if !ok {
          return false;
        }
      }
      if account.id in rows {
        return false;
      }
      rows := rows[account.id := AccountRow(account.info.maxDepthLt, account.info.maxDepthLt)];
      if account.info.jetton.Some? {
        wallets := wallets + {Wallet(account.id, account.info.recipient, account.info.jetton.value)};
      }
      ok := true;
    }
  }

  /** An account for this jetton is there already. */
  method HasJetton(accounts: Tracking, recipient: Address, master: Address) returns (found: bool)
    ensures found <==> HasAccount(accounts, recipient, master)
  {
    found := false;
    var todo := accounts.Keys;
    while todo != {}
      invariant todo <= accounts.Keys
      invariant found <==> exists a :: a in accounts && a !in todo
                                       && accounts[a].recipient == recipient && accounts[a].jetton == Some(master)
      decreases todo
    {
      var a :| a in todo;
      if accounts[a].recipient == recipient && accounts[a].jetton == Some(master) {
        found := true;
      }
      todo := todo - {a};
    }
  }

  /** `accounts` is what is stored plus the accounts that are `missing` for the currencies in `done`. */
  ghost predicate Reconciled(
      stored: Tracking, accounts: Tracking, missing: Tracking,
      recipient: Address, walletOf: Address -> Address, done: set<Currency>)
  {
    && accounts.Keys == stored.Keys + missing.Keys
    && stored.Keys !! missing.Keys
    && (forall a :: a in stored ==> accounts[a] == stored[a])
    && (forall a :: a in missing ==> accounts[a] == missing[a] && IsNew(recipient, walletOf, done, a, missing[a]))
    && (Ton in done ==> recipient in accounts)
    && (forall j: Address :: Jetton(j) in done ==> HasAccount(accounts, recipient, j))
  }

  ghost predicate HasAccount(accounts: Tracking, recipient: Address, master: Address) {
    exists a :: a in accounts && accounts[a].recipient == recipient && accounts[a].jetton == Some(master)
  }

  ghost predicate IsNew(
      recipient: Address, walletOf: Address -> Address, done: set<Currency>, a: Address, info: AccountInfo)
  {
    && info.recipient == recipient
    && (info.jetton.None? ==> a == recipient && Ton in done)
    && (info.jetton.Some? ==> a == walletOf(info.jetton.value) && Jetton(info.jetton.value) in done)
  }

  /** An account is added for one more currency, or the currency needs none. */
  lemma OneMoreCurrency(
      stored: Tracking, accounts: Tracking, missing: Tracking, recipient: Address, walletOf: Address -> Address,
      done: set<Currency>, cur: Currency, added: Tracking)
    requires Reconciled(stored, accounts, missing, recipient, walletOf, done)
    requires accounts.Keys !! added.Keys
    requires forall a :: a in added ==> IsNew(recipient, walletOf, {cur}, a, added[a])
    requires cur == Ton ==> recipient in accounts || recipient in added
    requires cur.Jetton? ==> HasAccount(accounts, recipient, cur.master) || HasAccount(added, recipient, cur.master)
    ensures Reconciled(stored, accounts + added, missing + added, recipient, walletOf, done + {cur})
  {
    var all := accounts + added;
    forall j: Address | Jetton(j) in done + {cur}
      ensures HasAccount(all, recipient, j)
    {
      if HasAccount(accounts, recipient, j) {
        var a :| a in accounts && accounts[a].recipient == recipient && accounts[a].jetton == Some(j);
        assert all[a] == accounts[a];
      } else {
        var a :| a in added && added[a].recipient == recipient && added[a].jetton == Some(j);
        assert all[a] == added[a];
      }
    }
  }

  /** The account that a currency still needs, if any; `lookUp` says whether the wallet of a jetton can be looked up. */
  method MissingFor(cur: Currency, accounts: Tracking, recipient: Address,
                    walletOf: Address -> Address, lookUp: Address -> bool)
    returns (r: Result<Tracking>)
    ensures r.Err? <==> cur.Jetton? && !HasAccount(accounts, recipient, cur.master) && !lookUp(cur.master)
    ensures r.Ok? ==> forall a :: a in r.value ==> IsNew(recipient, walletOf, {cur}, a, r.value[a])
    ensures r.Ok? && cur == Ton ==> recipient in accounts || recipient in r.value
    ensures r.Ok? && cur.Jetton? ==>
              HasAccount(accounts, recipient, cur.master) || HasAccount(r.value, recipient, cur.master)
    ensures r.Ok? && cur == Ton ==> accounts.Keys !! r.value.Keys
    ensures r.Ok? && HasAccountFor(accounts, recipient, cur) ==> r.value == map[]
    ensures r.Ok? && cur.Extra? ==> r.value == map[]
    ensures r.Ok? && cur.Jetton? ==> r.value.Keys <= {walletOf(cur.master)}
  {
    match cur {
      case Extra(_) =>
        return Ok(map[]);
      case Ton =>
        if recipient in accounts {
          return Ok(map[]);
        }
        return Ok(map[recipient := AccountInfo(0, recipient, None)]);
      case Jetton(master) =>
        var found := HasJetton(accounts, recipient, master);
        if found {
          return Ok(map[]);
        }
        if !lookUp(master) {
          return Err;
        }
        var added := map[walletOf(master) := AccountInfo(0, recipient, Some(master))];
        assert added[walletOf(master)].jetton == Some(master);
        return Ok(added);
    }
  }

  ghost predicate HasAccountFor(accounts: Tracking, recipient: Address, cur: Currency) {
    cur.Jetton? && HasAccount(accounts, recipient, cur.master)
  }

  /** A jetton without account whose wallet cannot be looked up. */
  ghost predicate Unknown(
      stored: Tracking, recipient: Address, currencies: set<Currency>, lookUp: Address -> bool, master: Address)
  {
    Jetton(master) in currencies && !HasAccount(stored, recipient, master) && !lookUp(master)
  }

  lemma StoredAccountsStay(stored: Tracking, accounts: Tracking, recipient: Address, master: Address)
    requires forall a :: a in stored ==> a in accounts && accounts[a] == stored[a]
    ensures HasAccount(stored, recipient, master) ==> HasAccount(accounts, recipient, master)
  {
    if a :| a in stored && stored[a].recipient == recipient && stored[a].jetton == Some(master) {
      assert accounts[a] == stored[a];
    }
  }

  /** The address of a wallet is in use only for its own jetton. */
  lemma WalletInUse(
      t: Tables, stored: Tracking, accounts: Tracking, missing: Tracking, recipient: Address,
      walletOf: Address -> Address, currencies: set<Currency>, done: set<Currency>, master: Address)
    requires DistinctWallets(recipient, walletOf) && Consistent(t, recipient, walletOf)
    requires IsTracked(t, recipient, currencies, stored)
    requires Reconciled(stored, accounts, missing, recipient, walletOf, done)
    ensures walletOf(master) in accounts ==> HasAccount(accounts, recipient, master)
  {
    var a := walletOf(master);
    if a in stored {
      assert Describes(t, recipient, currencies, a, stored[a]);
    }
  }

  /**
    Adds an account for every currency that has none, in any order of the configuration. The only
    error is the wallet of a jetton without account that cannot be looked up.
  */
  method FindMissing(stored: Tracking, recipient: Address, currencies: set<Currency>,
                     walletOf: Address -> Address, lookUp: Address -> bool, ghost t: Tables)
    returns (r: Result<(Tracking, Tracking)>)
    ensures r.Err? ==> exists j: Address :: Unknown(stored, recipient, currencies, lookUp, j)
    requires DistinctWallets(recipient, walletOf) && Consistent(t, recipient, walletOf)
    requires IsTracked(t, recipient, currencies, stored)
    ensures r.Ok? ==> Reconciled(stored, r.value.0, r.value.1, recipient, walletOf, currencies)
  {
    var accounts, missing: Tracking := stored, map[];
    var todo := currencies;
    while todo != {}
      invariant todo <= currencies
      invariant Reconciled(stored, accounts, missing, recipient, walletOf, currencies - todo)
      decreases todo
    {
      var cur :| cur in todo;
      var added := MissingFor(cur, accounts, recipient, walletOf, lookUp);
      if added.Err? {
        StoredAccountsStay(stored, accounts, recipient, cur.master);
        assert Unknown(stored, recipient, currencies, lookUp, cur.master);
        return Err;
      }
      if cur.Jetton? && added.value != map[] {
        WalletInUse(t, stored, accounts, missing, recipient, walletOf, currencies, currencies - todo, cur.master);
      }
      OneMoreCurrency(stored, accounts, missing, recipient, walletOf, currencies - todo, cur, added.value);
      assert currencies - (todo - {cur}) == currencies - todo + {cur};
      accounts, missing := accounts + added.value, missing + added.value;
      todo := todo - {cur};
    }
    assert currencies - todo == currencies;
    return Ok((accounts, missing));
  }

  /** The accounts created so far and those still to create make up what is tracked. */
  ghost predicate Creating(
      t: Tables, accounts: Tracking, todo: set<Address>, recipient: Address, currencies: set<Currency>)
  {
    && (forall a :: a in accounts && a !in todo ==> Describes(t, recipient, currencies, a, accounts[a]))
    && (recipient in t.rows ==> recipient in accounts)
    && (forall w :: Selected(t, recipient, currencies, w) ==> w.address in accounts)
  }

  /** Stored accounts are kept as they are: in particular they keep the position indexing started from. */
  ghost predicate Keeps(before: Tables, after: Tables) {
    && (forall a :: a in before.rows ==> a in after.rows && after.rows[a] == before.rows[a])
    && before.wallets <= after.wallets
  }

  /** Every configured currency has its account in the tables. */
  ghost predicate Complete(t: Tables, recipient: Address, currencies: set<Currency>) {
    && (Ton in currencies ==> recipient in t.rows)
    && (forall j: Address :: Jetton(j) in currencies ==>
          exists w :: Selected(t, recipient, currencies, w) && w.master == j)
  }

  /** The tables after the account row, and the wallet row of a jetton wallet, have been inserted. */
  function Created(t: Tables, account: Account): Tables {
    Tables(t.rows[account.id := AccountRow(account.info.maxDepthLt, account.info.maxDepthLt)],
           if account.info.jetton.Some?
           then t.wallets + {Wallet(account.id, account.info.recipient, account.info.jetton.value)} else t.wallets)
  }

  lemma CreationStep(
      t0: Tables, t: Tables, accounts: Tracking, todo: set<Address>, a: Address, info: AccountInfo,
      recipient: Address, walletOf: Address -> Address, currencies: set<Currency>)
    requires DistinctWallets(recipient, walletOf) && Consistent(t, recipient, walletOf) && Keeps(t0, t)
    requires Creating(t, accounts, todo, recipient, currencies)
    requires a in todo && a in accounts && a !in t.rows && IsNew(recipient, walletOf, currencies, a, info)
    ensures Consistent(Created(t, Account(a, info)), recipient, walletOf) && Keeps(t0, Created(t, Account(a, info)))
    ensures Creating(Created(t, Account(a, info)), accounts[a := info], todo - {a}, recipient, currencies)
  {
    var t' := Created(t, Account(a, info));
    forall w | Selected(t', recipient, currencies, w)
      ensures w.address in accounts[a := info]
    {
      assert w in t.wallets ==> Selected(t, recipient, currencies, w);
    }
    forall b | b in accounts && b !in todo
      ensures Describes(t', recipient, currencies, b, accounts[b])
    {
      assert Describes(t, recipient, currencies, b, accounts[b]);
    }
  }

  /** Some of the accounts have been created: the tables were `t0` before, and only start positions have changed. */
  ghost predicate Underway(
      t0: Tables, t: Tables, accounts0: Tracking, accounts: Tracking, todo: set<Address>,
      recipient: Address, walletOf: Address -> Address, currencies: set<Currency>)
  {
    && Consistent(t, recipient, walletOf) && Keeps(t0, t)
    && Creating(t, accounts, todo, recipient, currencies)
    && accounts.Keys == accounts0.Keys
    && forall a :: a in accounts ==>
         accounts[a].recipient == accounts0[a].recipient && accounts[a].jetton == accounts0[a].jetton
  }

  lemma UnderwayStep(
      t0: Tables, t: Tables, accounts0: Tracking, accounts: Tracking, todo: set<Address>, a: Address, info: AccountInfo,
      recipient: Address, walletOf: Address -> Address, currencies: set<Currency>)
    requires DistinctWallets(recipient, walletOf)
    requires Underway(t0, t, accounts0, accounts, todo, recipient, walletOf, currencies)
    requires a in todo && a in accounts && a !in t.rows && IsNew(recipient, walletOf, currencies, a, info)
    requires info.recipient == accounts0[a].recipient && info.jetton == accounts0[a].jetton
    ensures Underway(t0, Created(t, Account(a, info)), accounts0, accounts[a := info], todo - {a},
                     recipient, walletOf, currencies)
  {
    CreationStep(t0, t, accounts, todo, a, info, recipient, walletOf, currencies);
  }

  /** What covers all currencies and is what the tables say makes the tables complete. */
  lemma CoveredIsComplete(t: Tables, recipient: Address, currencies: set<Currency>, m: Tracking)
    requires IsTracked(t, recipient, currencies, m)
    requires Ton in currencies ==> recipient in m
    requires forall j: Address :: Jetton(j) in currencies ==> HasAccount(m, recipient, j)
    ensures Complete(t, recipient, currencies)
  {
    assert recipient in m ==> Describes(t, recipient, currencies, recipient, m[recipient]);
    forall j: Address | Jetton(j) in currencies
      ensures exists w :: Selected(t, recipient, currencies, w) && w.master == j
    {
      var a :| a in m && m[a].recipient == recipient && m[a].jetton == Some(j);
      assert Describes(t, recipient, currencies, a, m[a]);
      assert Selected(t, recipient, currencies, Wallet(a, recipient, j));
    }
  }

  /** Complete tables track one account for each jetton and one for TON, and nothing else. */
  lemma CompleteCovers(
      t: Tables, recipient: Address, walletOf: Address -> Address, currencies: set<Currency>, m: Tracking)
    requires DistinctWallets(recipient, walletOf) && Consistent(t, recipient, walletOf)
    requires IsTracked(t, recipient, currencies, m) && Complete(t, recipient, currencies)
    ensures Covers(m, recipient, currencies)
  {
    forall a | a in m
      ensures Describes(t, recipient, currencies, a, m[a])
      ensures m[a].jetton.Some? ==> a == walletOf(m[a].jetton.value) && Jetton(m[a].jetton.value) in currencies
      ensures m[a].jetton.None? ==> a == recipient
    {
      assert Describes(t, recipient, currencies, a, m[a]);
    }
    forall j: Address | Jetton(j) in currencies
      ensures exists a :: a in m && m[a].jetton == Some(j)
    {
      var w :| Selected(t, recipient, currencies, w) && w.master == j;
      assert Describes(t, recipient, currencies, w.address, m[w.address]);
    }
  }

  /** What can go wrong at a start, apart from statements that fail. */
  ghost predicate Obstacle(
      t: Tables, recipient: Address, currencies: set<Currency>,
      walletOf: Address -> Address, lookUp: Address -> bool, headOf: Address -> Result<nat>)
  {
    || (exists j: Address :: Jetton(j) in currencies && !lookUp(j))
    || (exists a, info :: IsNew(recipient, walletOf, currencies, a, info) && (headOf(a).Err? || a in t.rows))
  }

  /**
    The start of the service. Whatever it stops at, the tables stay consistent, stored accounts are
    kept, and new ones start at the heads that the chain reports. On success the tables are complete.
    Complete tables are left alone, and then only a failing statement can stop the start.
  */
  method GetAccountsForTracking(
      tables: AccountTables, recipient: Address, currencies: set<Currency>,
      walletOf: Address -> Address, lookUp: Address -> bool, headOf: Address -> Result<nat>)
    returns (r: Result<Tracking>)
    requires DistinctWallets(recipient, walletOf) && Consistent(tables.Contents(), recipient, walletOf)
    modifies tables, tables.db
    ensures old(tables.db.statements) <= tables.db.statements
    ensures Consistent(tables.Contents(), recipient, walletOf) && Keeps(old(tables.Contents()), tables.Contents())
    ensures r.Ok? ==> IsTracked(tables.Contents(), recipient, currencies, r.value)
    ensures r.Ok? ==> Complete(tables.Contents(), recipient, currencies)
    ensures StartAtHeads(old(tables.Contents()), tables.Contents(), headOf)
    ensures Complete(old(tables.Contents()), recipient, currencies) ==> tables.Contents() == old(tables.Contents())
    ensures r.Ok? ==> !tables.db.Trouble(old(tables.db.statements), tables.db.statements)
    ensures r.Err? ==>
              || tables.db.Trouble(old(tables.db.statements), tables.db.statements)
              || (!Complete(old(tables.Contents()), recipient, currencies)
                  && Obstacle(old(tables.Contents()), recipient, currencies, walletOf, lookUp, headOf))
  {
    ghost var t0 := tables.Contents();
    var stored := tables.GetTrackedAccounts(recipient, currencies, walletOf);
    if stored.Err? {
      return Err;
    }
    var found := FindMissing(stored.value, recipient, currencies, walletOf, lookUp, t0);
    if found.Err? {
      CompleteHasAccounts(t0, recipient, walletOf, currencies, stored.value);
      return Err;
    }
    NothingMissing(t0, recipient, walletOf, currencies, stored.value, found.value.0, found.value.1);
    r := CreateMissing(tables, found.value.0, found.value.1, recipient, currencies, walletOf, headOf);
    if r.Ok? {
      CoveredIsComplete(tables.Contents(), recipient, currencies, r.value);
    }
  }

  /** Complete tables have an account for every jetton. */
  lemma CompleteHasAccounts(
      t: Tables, recipient: Address, walletOf: Address -> Address, currencies: set<Currency>, stored: Tracking)
    requires DistinctWallets(recipient, walletOf) && Consistent(t, recipient, walletOf)
    requires IsTracked(t, recipient, currencies, stored)
    ensures Complete(t, recipient, currencies) ==>
              forall j: Address :: Jetton(j) in currencies ==> HasAccount(stored, recipient, j)
  {
    if Complete(t, recipient, currencies) {
      forall j: Address | Jetton(j) in currencies
        ensures HasAccount(stored, recipient, j)
      {
        var w :| Selected(t, recipient, currencies, w) && w.master == j;
        assert Describes(t, recipient, currencies, w.address, stored[w.address]);
      }
    }
  }

  /** Nothing is missing from complete tables. */
  lemma NothingMissing(
      t: Tables, recipient: Address, walletOf: Address -> Address, currencies: set<Currency>,
      stored: Tracking, accounts: Tracking, missing: Tracking)
    requires DistinctWallets(recipient, walletOf) && Consistent(t, recipient, walletOf)
    requires IsTracked(t, recipient, currencies, stored)
    requires Reconciled(stored, accounts, missing, recipient, walletOf, currencies)
    ensures Complete(t, recipient, currencies) ==> missing == map[]
    ensures Creating(t, accounts, missing.Keys, recipient, currencies)
  {
    forall a
      ensures Complete(t, recipient, currencies) ==> a !in missing
    {
      if a in accounts && Complete(t, recipient, currencies) && accounts[a].jetton.Some?
         && Jetton(accounts[a].jetton.value) in currencies {
        var w :| Selected(t, recipient, currencies, w) && w.master == accounts[a].jetton.value;
        assert w.address in stored;
      }
    }
  }

  /**
    Creates the missing accounts at their current heads, in any order. Apart from failing statements,
    a head that cannot be had and an address that is stored already are the only errors.
  */
  method CreateMissing(tables: AccountTables, accounts0: Tracking, missing: Tracking, recipient: Address,
                       currencies: set<Currency>, walletOf: Address -> Address, headOf: Address -> Result<nat>)
    returns (r: Result<Tracking>)
    requires DistinctWallets(recipient, walletOf) && Consistent(tables.Contents(), recipient, walletOf)
    requires missing.Keys <= accounts0.Keys
    requires forall a :: a in missing ==>
               accounts0[a] == missing[a] && IsNew(recipient, walletOf, currencies, a, missing[a])
    requires Creating(tables.Contents(), accounts0, missing.Keys, recipient, currencies)
    requires Ton in currencies ==> recipient in accounts0
    requires forall j: Address :: Jetton(j) in currencies ==> HasAccount(accounts0, recipient, j)
    modifies tables, tables.db
    ensures old(tables.db.statements) <= tables.db.statements
    ensures Consistent(tables.Contents(), recipient, walletOf) && Keeps(old(tables.Contents()), tables.Contents())
    ensures missing == map[] ==> tables.Contents() == old(tables.Contents())
    ensures StartAtHeads(old(tables.Contents()), tables.Contents(), headOf)
    ensures tables.rows.Keys <= old(tables.rows.Keys) + missing.Keys
    ensures r.Ok? ==> tables.rows.Keys == old(tables.rows.Keys) + missing.Keys
    ensures r.Ok? ==> TracksFromHeads(accounts0, r.value, missing, headOf)
    ensures r.Ok? ==> IsTracked(tables.Contents(), recipient, currencies, r.value)
    ensures r.Ok? && Ton in currencies ==> recipient in r.value
    ensures r.Ok? ==> forall j: Address :: Jetton(j) in currencies ==> HasAccount(r.value, recipient, j)
    ensures r.Ok? ==> !tables.db.Trouble(old(tables.db.statements), tables.db.statements)
    ensures r.Err? ==>
              || tables.db.Trouble(old(tables.db.statements), tables.db.statements)
              || exists a :: a in missing && (headOf(a).Err? || a in old(tables.rows))
  {
    var accounts := accounts0;
    var todo := missing.Keys;
    while todo != {}
      invariant todo <= missing.Keys && accounts.Keys == accounts0.Keys
      invariant Underway(old(tables.Contents()), tables.Contents(), accounts0, accounts, todo,
                         recipient, walletOf, currencies)
      invariant AtHeads(old(tables.Contents()), tables.Contents(), accounts0, accounts, missing, todo, headOf)
      invariant missing == map[] ==> tables.Contents() == old(tables.Contents())
      invariant old(tables.db.statements) <= tables.db.statements
      invariant !tables.db.Trouble(old(tables.db.statements), tables.db.statements)
      decreases todo
    {
      var a :| a in todo;
      var head := headOf(a);
      if head.Err? {
        return Err;
      }
      var info := missing[a].(maxDepthLt := head.value);
      ghost var t := tables.Contents();
      var ok := tables.CreateAccount(Account(a, info));
      if !ok {
        return Err;
      }
      UnderwayStep(old(tables.Contents()), t, accounts0, accounts, todo, a, info, recipient, walletOf, currencies);
      AtHeadsStep(old(tables.Contents()), t, accounts0, accounts, missing, todo, a, info, headOf);
      assert tables.Contents() == Created(t, Account(a, info));
      accounts := accounts[a := info];
      todo := todo - {a};
    }
    SameJettons(accounts0, accounts, recipient, currencies);
    AllCreated(old(tables.Contents()), tables.Contents(), accounts0, accounts, missing, recipient, walletOf, currencies,
               headOf);
    return Ok(accounts);
  }

  /** Every new account starts, and will be indexed from, the reported head. */
  ghost predicate StartAtHeads(before: Tables, after: Tables, headOf: Address -> Result<nat>) {
    forall a :: a in after.rows && a !in before.rows ==>
      headOf(a).Ok? && after.rows[a] == AccountRow(headOf(a).value, headOf(a).value)
  }

  /** The accounts are those of `before`, but the missing ones are tracked from the reported heads. */
  ghost predicate TracksFromHeads(
      before: Tracking, after: Tracking, missing: Tracking, headOf: Address -> Result<nat>)
  {
    && after.Keys == before.Keys
    && forall a :: a in after ==>
         if a in missing then headOf(a).Ok? && after[a] == missing[a].(maxDepthLt := headOf(a).value)
         else after[a] == before[a]
  }

  lemma AllCreated(
      t0: Tables, t: Tables, accounts0: Tracking, accounts: Tracking, missing: Tracking,
      recipient: Address, walletOf: Address -> Address, currencies: set<Currency>, headOf: Address -> Result<nat>)
    requires Underway(t0, t, accounts0, accounts, {}, recipient, walletOf, currencies)
    requires AtHeads(t0, t, accounts0, accounts, missing, {}, headOf)
    ensures TracksFromHeads(accounts0, accounts, missing, headOf)
    ensures IsTracked(t, recipient, currencies, accounts)
    ensures t.rows.Keys == t0.rows.Keys + missing.Keys
  {
    assert missing.Keys - {} == missing.Keys;
  }

  /** So it is with the accounts created so far, in the tables and in the result; all others are as they were. */
  ghost predicate AtHeads(
      t0: Tables, t: Tables, accounts0: Tracking, accounts: Tracking, missing: Tracking, todo: set<Address>,
      headOf: Address -> Result<nat>)
  {
    && accounts.Keys == accounts0.Keys
    && todo <= missing.Keys <= accounts.Keys
    && StartAtHeads(t0, t, headOf)
    && t.rows.Keys == t0.rows.Keys + (missing.Keys - todo)
    && (forall a :: a in todo || (a in accounts && a !in missing) ==> accounts[a] == accounts0[a])
    && (forall a :: a in missing && a !in todo ==>
          a !in t0.rows && headOf(a).Ok? && accounts[a] == missing[a].(maxDepthLt := headOf(a).value))
  }

  lemma AtHeadsStep(
      t0: Tables, t: Tables, accounts0: Tracking, accounts: Tracking, missing: Tracking, todo: set<Address>,
      a: Address, info: AccountInfo, headOf: Address -> Result<nat>)
    requires AtHeads(t0, t, accounts0, accounts, missing, todo, headOf)
    requires a in todo && a !in t.rows
    requires headOf(a).Ok? && info == missing[a].(maxDepthLt := headOf(a).value)
    ensures AtHeads(t0, Created(t, Account(a, info)), accounts0, accounts[a := info], missing, todo - {a}, headOf)
  {
    var t', accounts' := Created(t, Account(a, info)), accounts[a := info];
    assert t'.rows.Keys == t0.rows.Keys + (missing.Keys - (todo - {a})) && a !in t0.rows;
    assert StartAtHeads(t0, t', headOf);
    assert accounts'.Keys == accounts0.Keys;
  }

  /** New start positions change nothing about which jettons have an account. */
  lemma SameJettons(before: Tracking, after: Tracking, recipient: Address, currencies: set<Currency>)
    requires after.Keys == before.Keys
    requires forall a :: a in after ==> after[a].recipient == before[a].recipient && after[a].jetton == before[a].jetton
    requires forall j: Address :: Jetton(j) in currencies ==> HasAccount(before, recipient, j)
    ensures forall j: Address :: Jetton(j) in currencies ==> HasAccount(after, recipient, j)
  {
    forall j: Address | Jetton(j) in currencies
      ensures HasAccount(after, recipient, j)
    {
      var a :| a in before && before[a].recipient == recipient && before[a].jetton == Some(j);
      assert after[a].recipient == recipient;
    }
  }

  /**
    A second start of the same configuration creates nothing, even if it fails: the tables remain as
    they were `between` the two. It gets through unless a statement fails, whatever heads the chain has
    reached by then, and tracks the same accounts from the same positions.
  */
  method StartTwice(
      tables: AccountTables, recipient: Address, currencies: set<Currency>, walletOf: Address -> Address,
      lookUp: Address -> bool, headOf: Address -> Result<nat>,
      lookUp': Address -> bool, headOf': Address -> Result<nat>)
    returns (first: Result<Tracking>, second: Result<Tracking>, ghost between: Tables, ghost mark: nat)
    requires DistinctWallets(recipient, walletOf) && Consistent(tables.Contents(), recipient, walletOf)
    modifies tables, tables.db
    ensures Consistent(tables.Contents(), recipient, walletOf) && Keeps(old(tables.Contents()), tables.Contents())
    ensures StartAtHeads(old(tables.Contents()), between, headOf)
    ensures first.Ok? ==> Covers(first.value, recipient, currencies)
    ensures first.Ok? ==> IsTracked(between, recipient, currencies, first.value)
    ensures first.Ok? && second.Ok? ==> second == first
    ensures old(tables.db.statements) <= mark <= tables.db.statements
    ensures first.Ok? ==> (second.Ok? <==> !tables.db.Trouble(mark, tables.db.statements))
    ensures tables.Contents() == between
  {
    first := GetAccountsForTracking(tables, recipient, currencies, walletOf, lookUp, headOf);
    second, between, mark := Err, tables.Contents(), tables.db.statements;
    if first.Ok? {
      CompleteCovers(tables.Contents(), recipient, walletOf, currencies, first.value);
      second := GetAccountsForTracking(tables, recipient, currencies, walletOf, lookUp', headOf');
      if second.Ok? {
        TrackedIsUnique(between, recipient, walletOf, currencies, first.value, second.value);
      }
    }
  }

  /** The accounts of a start serve different invoices: no invoice is credited by two workers. */
  lemma TrackedAccountsDisjoint(m: Tracking, recipient: Address, currencies: set<Currency>)
    requires Covers(m, recipient, currencies)
    ensures Disjoint(map a | a in m :: Account(a, m[a]))
  {
  }
}
