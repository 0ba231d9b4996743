/** Schema migrations with a version row and a dirty flag (pkg/db/connection.go). */
module Migrations {
  import Connections

  /** A directory entry, in the order of the names; `wellNamed` entries carry a version and a direction. */
  datatype File = File(regular: bool, wellNamed: bool, version: nat, up: bool)

  /** Every entry was looked at, the code returned an error, or the process stopped between two statements. */
  datatype Outcome = Done | Refused | Stopped

  /** A row of schema_migrations. */
  datatype VersionRow = VersionRow(version: nat, dirty: bool)

  /** Scripts 1, ..., `n`, each once and in order. */
  function Scripts(n: nat): (r: seq<nat>)
    ensures |r| == n && forall i :: 0 <= i < n ==> r[i] == i + 1
  {
    if n == 0 then [] else Scripts(n - 1) + [n]
  }

  /** The version that the table reports: 0 without a row. */
  function VersionOf(rows: seq<VersionRow>): nat {
    if rows == [] then 0 else rows[0].version
  }

  predicate Dirty(rows: seq<VersionRow>) {
    rows != [] && rows[0].dirty
  }

  /**
    At most one row; a clean row says exactly which scripts ran, a dirty one leaves open only whether
    the script it names ran.
  */
  predicate Sound(rows: seq<VersionRow>, ran: seq<nat>) {
    && |rows| <= 1
    && (rows != [] ==> rows[0].version > 0)
    && (ran == Scripts(VersionOf(rows)) || (Dirty(rows) && ran == Scripts(VersionOf(rows) - 1)))
  }

  /** A script to be run on a table at version `v`. */
  predicate IsNew(f: File, v: nat) {
    f.regular && f.wellNamed && f.up && v < f.version
  }

  /** One of the first `i` entries is a script of this version, or the table has it already. */
  ghost predicate Reached(files: seq<File>, i: nat, v: nat, version: nat)
    requires i <= |files|
  {
    version <= v || exists j :: 0 <= j < i && IsNew(files[j], v) && files[j].version == version
  }

  /** Entry `i` is in order: well named, and no script in between is missing. */
  ghost predicate Fits(files: seq<File>, v: nat, i: nat)
    requires i < |files|
  {
    files[i].regular ==>
      files[i].wellNamed && (IsNew(files[i], v) ==> Reached(files, i, v, files[i].version - 1))
  }

  /** The directory can be applied to a table at version `v`. */
  ghost predicate InOrder(files: seq<File>, v: nat) {
    forall i :: 0 <= i < |files| ==> Fits(files, v, i)
  }

  /** No script of the directory is above this version. */
  ghost predicate AtLeast(files: seq<File>, version: nat) {
    forall f :: f in files && f.regular && f.wellNamed && f.up ==> f.version <= version
  }

  /** The first `i` entries are in order and applied: they have taken a table from version `v` to `version`. */
  ghost predicate AppliedTo(files: seq<File>, i: nat, v: nat, version: nat)
    requires i <= |files|
  {
    && v <= version
    && (forall j :: 0 <= j < i ==> Fits(files, v, j))
    && (forall j :: 0 <= j < i && IsNew(files[j], v) ==> files[j].version <= version)
    && (forall w: nat :: w <= version ==> Reached(files, i, v, w))
  }

  lemma ReachedStays(files: seq<File>, i: nat, i': nat, v: nat, version: nat)
    requires i <= i' <= |files| && Reached(files, i, v, version)
    ensures Reached(files, i', v, version)
  {
  }

  /** An entry that is no script, or whose version the table has, changes nothing. */
  lemma AppliedSkips(files: seq<File>, i: nat, v: nat, version: nat)
    requires i < |files| && AppliedTo(files, i, v, version)
    requires files[i].regular ==> files[i].wellNamed && (files[i].version <= version || !files[i].up)
    ensures AppliedTo(files, i + 1, v, version)
  {
    var next := i + 1;
    forall w: nat | w <= version
      ensures Reached(files, next, v, w)
    {
      ReachedStays(files, i, next, v, w);
    }
  }

  /** The script of the next version. */
  lemma AppliedRuns(files: seq<File>, i: nat, v: nat, version: nat)
    requires i < |files| && AppliedTo(files, i, v, version)
    requires IsNew(files[i], v) && files[i].version == version + 1
    ensures AppliedTo(files, i + 1, v, version + 1)
  {
    var next := i + 1;
    forall w: nat | w <= version
      ensures Reached(files, next, v, w)
    {
      ReachedStays(files, i, next, v, w);
    }
    assert Reached(files, i, v, version);
  }

  /** A script whose predecessor is missing. */
  lemma MissingScript(files: seq<File>, i: nat, v: nat, version: nat)
    requires i < |files| && AppliedTo(files, i, v, version)
    requires IsNew(files[i], v) && files[i].version > version + 1
    ensures !Fits(files, v, i)
  {
  }

  class Database {
    const db: Connections.Connection
    var rows: seq<VersionRow>
    /** The scripts that have been executed; each one is a transaction of its own. */
    var ran: seq<nat>

    constructor (db: Connections.Connection)
      ensures this.db == db && rows == [] && ran == [] && Sound(rows, ran)
    {
      this.db, rows, ran := db, [], [];
    }

    /** UPDATE without WHERE: all rows. */
    method SetVersion(version: nat, dirty: bool)
      modifies this`rows
      ensures |rows| == |old(rows)| && forall i :: 0 <= i < |rows| ==> rows[i] == VersionRow(version, dirty)
    {
      rows := seq(|rows|, i => VersionRow(version, dirty));
    }

    /** One script: the row is marked dirty, the script runs, the row is clean again. */
    method ApplyScript(version: nat) returns (ok: bool)
      requires Sound(rows, ran) && !Dirty(rows) && version == VersionOf(rows) + 1
      modifies this, db
      ensures old(db.statements) <= db.statements
      ensures ok <==> !db.Trouble(old(db.statements), db.statements)
      ensures Sound(rows, ran) && old(ran) <= ran
      ensures ok ==> !Dirty(rows) && VersionOf(rows) == version
      ensures !Dirty(rows) ==> VersionOf(rows) == version || VersionOf(rows) == old(VersionOf(rows))
    {
      var reply := db.Send();
      if reply == Connections.Refused {
        return false;
      }
      if version == 1 {
        rows := rows + [VersionRow(version, true)];
      } else {
        SetVersion(version, true);
      }
      if reply == Connections.Unanswered {
        return false;
      }
      reply := db.Send();
      if reply == Connections.Refused {
        return false;
      }
      ran := ran + [version];
      if reply == Connections.Unanswered {
        return false;
      }
      reply := db.Send();
      if reply == Connections.Refused {
        return false;
      }
      SetVersion(version, false);
      ok := reply == Connections.Done;
    }

    /**
      One start. Whatever the directory holds and wherever it stops, the table stays sound and no
      script runs twice; a dirty table is refused and left alone; a start that gets through leaves a
      clean table at the highest version of it and the directory. Nothing else is refused than a dirty
      table and a directory that is not in order; nothing else stops it than a statement that is not
      answered.
    */
    method Migrate(files: seq<File>) returns (outcome: Outcome)
      requires Sound(rows, ran)
      modifies this, db
      ensures old(db.statements) <= db.statements
      ensures outcome.Stopped? <==> db.Trouble(old(db.statements), db.statements)
      ensures outcome.Refused? ==> old(Dirty(rows)) || !InOrder(files, old(VersionOf(rows)))
      ensures outcome.Done? ==> !old(Dirty(rows)) && InOrder(files, old(VersionOf(rows)))
      ensures Sound(rows, ran)
      ensures old(ran) <= ran
      ensures old(Dirty(rows)) ==> !outcome.Done? && unchanged(this)
      ensures outcome.Done? ==> !Dirty(rows)
      ensures outcome.Done? ==> AtLeast(files, VersionOf(rows))
      ensures !Dirty(rows) ==> Reached(files, |files|, old(VersionOf(rows)), VersionOf(rows))
    {
      for i := 0 to 2
        invariant old(db.statements) <= db.statements && !db.Trouble(old(db.statements), db.statements)
        invariant unchanged(this)
      {
        var ok := db.Exec();
        if !ok {
          return Stopped;
        }
      }
      var version := VersionOf(rows);
      ghost var v0 := version;
      if Dirty(rows) {
        return Refused;
      }
      for i := 0 to |files|
        invariant Sound(rows, ran) && !Dirty(rows) && version == VersionOf(rows)
        invariant old(ran) <= ran && !old(Dirty(rows))
        invariant old(db.statements) <= db.statements && !db.Trouble(old(db.statements), db.statements)
        invariant AppliedTo(files, i, v0, version)
      {
        var f := files[i];
        ReachedStays(files, i, |files|, v0, version);
        if !f.regular {
          AppliedSkips(files, i, v0, version);
          continue;
        }
        if !f.wellNamed {
          assert !Fits(files, v0, i);
          return Refused;
        }
        if f.version <= version || !f.up {
          AppliedSkips(files, i, v0, version);
          continue;
        }
        if f.version != version + 1 {
          MissingScript(files, i, v0, version);
          return Refused;
        }
        AppliedRuns(files, i, v0, version);
        var ok := ApplyScript(f.version);
        if !ok {
          ReachedStays(files, i + 1, |files|, v0, f.version);
          return Stopped;
        }
        version := f.version;
      }
      outcome := Done;
    }

    /**
      Any number of starts, with any directories. A table that has become dirty stays as it is. Each
      start is refused or stopped only for the reasons given, and one that gets through, if it is the
      last, leaves the table at or above every version of its directory.
    */
    method StartRepeatedly(releases: seq<seq<File>>) returns (outcomes: seq<Outcome>)
      requires Sound(rows, ran)
      modifies this, db
      ensures old(db.statements) <= db.statements
      ensures |outcomes| == |releases|
      ensures Stopped in outcomes <==> db.Trouble(old(db.statements), db.statements)
      ensures forall i :: 0 <= i < |releases| && outcomes[i].Refused? ==>
                Dirty(rows) || exists v: nat :: !InOrder(releases[i], v)
      ensures outcomes != [] && outcomes[|outcomes| - 1].Done? ==>
                !Dirty(rows) && AtLeast(releases[|releases| - 1], VersionOf(rows))
      ensures Sound(rows, ran)
      ensures old(ran) <= ran
      ensures old(Dirty(rows)) ==> unchanged(this)
    {
      outcomes := [];
      for i := 0 to |releases|
        invariant |outcomes| == i
        invariant old(db.statements) <= db.statements
        invariant Stopped in outcomes <==> db.Trouble(old(db.statements), db.statements)
        invariant forall j :: 0 <= j < i && outcomes[j].Refused? ==>
                    Dirty(rows) || exists v: nat :: !InOrder(releases[j], v)
        invariant outcomes != [] && outcomes[i - 1].Done? ==>
                    !Dirty(rows) && AtLeast(releases[i - 1], VersionOf(rows))
        invariant Sound(rows, ran) && old(ran) <= ran
        invariant old(Dirty(rows)) ==> unchanged(this)
      {
        var outcome := Migrate(releases[i]);
        outcomes := outcomes + [outcome];
      }
    }
  }

  /** In a sound table a clean version row counts the scripts that ran, and none ran twice. */
  lemma CleanVersionCounts(rows: seq<VersionRow>, ran: seq<nat>)
    requires Sound(rows, ran)
    ensures !Dirty(rows) ==> |ran| == VersionOf(rows)
    ensures Dirty(rows) ==> |ran| == VersionOf(rows) || |ran| == VersionOf(rows) - 1
    ensures forall i, j :: 0 <= i < j < |ran| ==> ran[i] < ran[j]
    ensures forall v: nat :: v in ran <==> 0 < v <= |ran|
  {
    forall v: nat
      ensures v in ran <==> 0 < v <= |ran|
    {
      if 0 < v <= |ran| {
        assert ran[v - 1] == v;
      }
    }
  }
}
