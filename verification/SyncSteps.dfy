/**
  The loader as a step machine over positions of the chain: one step per stored row, so that it can
  be stopped anywhere and interleaved with everything else (pkg/indexer/loader.go).
*/
module SyncSteps {
  import opened Wrappers
  import opened Transactions

  /** A running sync: the rows from `next` up to `top` are saved, it ends at `bottom`. */
  datatype Job = Job(top: nat, next: nat, bottom: nat)

  /**
    Either before the gap query of this life of the process, or behind it, with the gaps still to
    fill, the position of `lastLt` and the sync in progress.
  */
  datatype Loader = Starting | Running(queue: seq<(nat, nat)>, last: nat, job: Option<Job>)

  ghost predicate StartsAt(queue: seq<(nat, nat)>, i: nat) {
    exists j :: 0 <= j < |queue| && queue[j].0 == i
  }

  /** GetGaps: every gap is listed, in any order, and `last` is the newest stored position. */
  ghost predicate Start(size: nat, stored: set<nat>, loader: Loader, stored': set<nat>, loader': Loader) {
    && loader.Starting?
    && stored' == stored
    && loader'.Running? && loader'.job == None
    && NewestBelow(stored, size, loader'.last)
    && (forall gap :: gap in loader'.queue ==> IsGap(stored, gap))
    && (forall i: nat :: Unjoined(stored, i) ==> StartsAt(loader'.queue, i))
  }

  /** A loader that has nothing in progress. */
  predicate Free(loader: Loader) {
    loader.Running? && loader.job == None
  }

  /** The next gap: dropped when empty, else its sync begins. A reversed gap has no step but the crash. */
  ghost predicate TakeGap(k: nat, stored: set<nat>, loader: Loader, stored': set<nat>, loader': Loader) {
    && Free(loader) && loader.queue != []
    && stored' == stored
    && var gap := loader.queue[0];
       var bottom := Max(gap.1, k);
       && bottom <= gap.0
       && var job := if gap.0 == bottom then None else Some(Job(gap.0, gap.0, bottom));
          loader' == Running(loader.queue[1..], loader.last, job)
  }

  /** A head at position `n`, not older than `last`: synced already, or its sync
      begins. A head below the start has no step but the crash. */
  ghost predicate Refresh(k: nat, n: nat, stored: set<nat>, loader: Loader, stored': set<nat>, loader': Loader) {
    && Free(loader) && loader.queue == []
    && k <= n && loader.last <= n
    && stored' == stored
    && var bottom := Max(loader.last, k);
       loader' == loader.(job := if n == bottom then None else Some(Job(n, n, bottom)))
  }

  /** One row of a batch reaches the table. */
  ghost predicate Save(stored: set<nat>, loader: Loader, stored': set<nat>, loader': Loader) {
    && loader.Running? && loader.job.Some?
    && var job := loader.job.value;
       && job.bottom < job.next
       && stored' == stored + {job.next - 1}
       && loader' == loader.(job := Some(job.(next := job.next - 1)))
  }

  ghost predicate Finish(stored: set<nat>, loader: Loader, stored': set<nat>, loader': Loader) {
    && loader.Running? && loader.job.Some?
    && var job := loader.job.value;
       && job.next <= job.bottom
       && stored' == stored
       && loader' == loader.(last := job.top, job := None)
  }

  /** One step of a loader whose account starts at position `k` of a chain of `size` transactions. */
  ghost predicate LoaderStep(k: nat, size: nat, stored: set<nat>, loader: Loader, stored': set<nat>, loader': Loader) {
    || Start(size, stored, loader, stored', loader')
    || TakeGap(k, stored, loader, stored', loader')
    || (exists n: nat :: n <= size && Refresh(k, n, stored, loader, stored', loader'))
    || Save(stored, loader, stored', loader')
    || Finish(stored, loader, stored', loader')
  }

  /** A queued gap is empty, or lies in stored history, or is the hole. */
  ghost predicate GapFits(k: nat, e: nat, s: nat, h: nat, gap: (nat, nat)) {
    || gap.0 == k == Max(gap.1, k)
    || (Max(gap.1, k) <= gap.0 <= h && (e < s ==> gap.0 == s && Max(gap.1, k) == e))
  }

  ghost predicate Fits(k: nat, e: nat, s: nat, h: nat, loader: Loader) {
    loader.Running? ==>
      && loader.last <= h
      && if loader.job.None? then
        && (forall gap :: gap in loader.queue ==> GapFits(k, e, s, h, gap))
        && (e < s ==> StartsAt(loader.queue, s))
      else
        var job := loader.job.value;
        && (forall gap :: gap in loader.queue ==> GapFits(k, h, h, h, gap))
        && job.bottom <= job.next <= job.top
        && k <= job.bottom <= h
        && (e < s ==> job.bottom <= e && job.next == s && job.top <= h)
        && (e == s ==> job.top <= h || job.next == job.top)
  }

  /** The stored history is well-shaped and the loader is where it may be with it. */
  ghost predicate InStep(k: nat, size: nat, stored: set<nat>, loader: Loader, e: nat, s: nat, h: nat) {
    && h <= size
    && Shape(stored, k, e, s, h)
    && Fits(k, e, s, h, loader)
    && (loader.Running? && loader.job.Some? ==> loader.job.value.top <= size)
  }

  ghost predicate LoaderInvariant(k: nat, size: nat, stored: set<nat>, loader: Loader) {
    exists e: nat, s: nat, h: nat :: InStep(k, size, stored, loader, e, s, h)
  }

  lemma StartKeepsShape(
      k: nat, size: nat, stored: set<nat>, loader: Loader, stored': set<nat>, loader': Loader, e: nat, s: nat, h: nat)
    requires InStep(k, size, stored, loader, e, s, h) && Start(size, stored, loader, stored', loader')
    ensures InStep(k, size, stored', loader', e, s, h)
  {
    forall gap | gap in loader'.queue
      ensures GapFits(k, e, s, h, gap)
    {
      GapsOfShape(stored, k, e, s, h, gap);
    }
    if e < s {
      assert Unjoined(stored, s);
    }
    if loader'.last > 0 {
      assert loader'.last - 1 in stored;
    }
  }

  lemma TakeGapKeepsShape(
      k: nat, size: nat, stored: set<nat>, loader: Loader, stored': set<nat>, loader': Loader, e: nat, s: nat, h: nat)
    requires InStep(k, size, stored, loader, e, s, h) && TakeGap(k, stored, loader, stored', loader')
    ensures InStep(k, size, stored', loader', e, s, h)
  {
    var gap := loader.queue[0];
    assert gap in loader.queue;
    assert forall g :: g in loader'.queue ==> g in loader.queue;
    if e < s && loader'.job.None? {
      var j :| 0 <= j < |loader.queue| && loader.queue[j].0 == s;
      assert loader'.queue[j - 1].0 == s;
    }
  }

  lemma SaveKeepsShape(
      k: nat, size: nat, stored: set<nat>, loader: Loader, stored': set<nat>, loader': Loader, e: nat, s: nat, h: nat)
    returns (e': nat, s': nat, h': nat)
    requires InStep(k, size, stored, loader, e, s, h) && Save(stored, loader, stored', loader')
    ensures InStep(k, size, stored', loader', e', s', h')
  {
    var job := loader.job.value;
    var i := job.next - 1;
    if e < s {
      e', s', h' := if i == e then h else e, if i == e then h else i, h;
    } else if job.top <= h {
      e', s', h' := h, h, h;
    } else if i == h {
      e', s', h' := job.top, job.top, job.top;
    } else {
      e', s', h' := h, i, job.top;
    }
  }

  /** Whatever step the loader takes, at most one hole remains. */
  lemma LoaderStepKeepsInvariant(
      k: nat, size: nat, stored: set<nat>, loader: Loader, stored': set<nat>, loader': Loader)
    requires LoaderInvariant(k, size, stored, loader) && LoaderStep(k, size, stored, loader, stored', loader')
    ensures LoaderInvariant(k, size, stored', loader')
    ensures stored <= stored'
  {
    var e: nat, s: nat, h: nat :| InStep(k, size, stored, loader, e, s, h);
    if Start(size, stored, loader, stored', loader') {
      StartKeepsShape(k, size, stored, loader, stored', loader', e, s, h);
    } else if TakeGap(k, stored, loader, stored', loader') {
      TakeGapKeepsShape(k, size, stored, loader, stored', loader', e, s, h);
    } else if Save(stored, loader, stored', loader') {
      var e', s', h' := SaveKeepsShape(k, size, stored, loader, stored', loader', e, s, h);
    } else if Finish(stored, loader, stored', loader') {
      assert InStep(k, size, stored', loader', h, h, h);
    } else {
      var n: nat :| n <= size && Refresh(k, n, stored, loader, stored', loader');
      assert InStep(k, size, stored', loader', h, h, h);
    }
  }

  /** A crash only forgets; a growing chain only leaves more to do. */
  lemma CrashKeepsInvariant(k: nat, size: nat, size': nat, stored: set<nat>, loader: Loader)
    requires LoaderInvariant(k, size, stored, loader) && size <= size'
    ensures LoaderInvariant(k, size', stored, loader)
    ensures LoaderInvariant(k, size', stored, Starting)
  {
    var e: nat, s: nat, h: nat :| InStep(k, size, stored, loader, e, s, h);
    assert InStep(k, size', stored, loader, e, s, h);
    assert InStep(k, size', stored, Starting, e, s, h);
  }

  /**
    Recovery: a loader without queued gaps and without sync in progress has no hole below it, and
    everything from the start of the account up to `lastLt` is stored, even if `lastLt` moved down.
  */
  lemma RefreshingIsContiguous(k: nat, size: nat, stored: set<nat>, loader: Loader)
    requires LoaderInvariant(k, size, stored, loader) && Free(loader) && loader.queue == []
    ensures exists h: nat :: loader.last <= h <= size && Contiguous(stored, k, h)
    ensures forall i: nat :: k <= i < loader.last ==> i in stored
  {
    var e: nat, s: nat, h: nat :| InStep(k, size, stored, loader, e, s, h);
    assert Contiguous(stored, k, h);
  }

  /** No loader ever gets stuck on a reversed gap: the next queued gap can always be taken. */
  lemma GapsCanBeTaken(k: nat, size: nat, stored: set<nat>, loader: Loader)
    requires LoaderInvariant(k, size, stored, loader) && Free(loader) && loader.queue != []
    ensures Max(loader.queue[0].1, k) <= loader.queue[0].0
  {
    var e: nat, s: nat, h: nat :| InStep(k, size, stored, loader, e, s, h);
    assert loader.queue[0] in loader.queue;
  }

  // Sequences of steps

  /** A loader together with the stored history of its account. */
  type Situation = (set<nat>, Loader)

  /** The steps of `trace` lead from one situation to another. */
  ghost predicate Leads(k: nat, size: nat, trace: seq<Situation>, from: Situation, to: Situation) {
    && trace != [] && trace[0] == from && trace[|trace| - 1] == to
    && forall i :: 0 <= i < |trace| - 1 ==>
         LoaderStep(k, size, trace[i].0, trace[i].1, trace[i + 1].0, trace[i + 1].1)
  }

  lemma {:induction false} LeadsKeepsInvariant(
      k: nat, size: nat, trace: seq<Situation>, from: Situation, to: Situation)
    requires Leads(k, size, trace, from, to) && LoaderInvariant(k, size, from.0, from.1)
    ensures LoaderInvariant(k, size, to.0, to.1)
    ensures from.0 <= to.0
    decreases |trace|
  {
    if |trace| > 1 {
      var n := |trace| - 1;
      LeadsKeepsInvariant(k, size, trace[..n], from, trace[n - 1]);
      assert LoaderStep(k, size, trace[n - 1].0, trace[n - 1].1, trace[n - 1 + 1].0, trace[n - 1 + 1].1);
      LoaderStepKeepsInvariant(k, size, trace[n - 1].0, trace[n - 1].1, to.0, to.1);
    }
  }

  lemma LeadsJoined(
      k: nat, size: nat, one: seq<Situation>, other: seq<Situation>, from: Situation, mid: Situation, to: Situation)
    requires Leads(k, size, one, from, mid) && Leads(k, size, other, mid, to)
    ensures Leads(k, size, one + other[1..], from, to)
  {
    var all := one + other[1..];
    forall i | 0 <= i < |all| - 1
      ensures LoaderStep(k, size, all[i].0, all[i].1, all[i + 1].0, all[i + 1].1)
    {
      if i >= |one| - 1 {
        var j := i - (|one| - 1);
        assert all[i] == other[j] && all[i + 1] == other[j + 1];
      }
    }
  }

  /** Any table in which a running sync has filled a block from its next row down is reached row by row. */
  lemma {:induction false} SavesLead(
      k: nat, size: nat, stored: set<nat>, loader: Loader, stored': set<nat>, low: nat)
    returns (trace: seq<Situation>)
    requires loader.Running? && loader.job.Some?
    requires loader.job.value.bottom <= low <= loader.job.value.next
    requires Filled(stored, stored', low, loader.job.value.next)
    ensures Leads(k, size, trace, (stored, loader), (stored', loader.(job := Some(loader.job.value.(next := low)))))
    decreases loader.job.value.next - low
  {
    var job := loader.job.value;
    if low == job.next {
      assert stored' == stored;
      trace := [(stored, loader)];
    } else {
      var stored1, loader1 := stored + {job.next - 1}, loader.(job := Some(job.(next := job.next - 1)));
      assert Save(stored, loader, stored1, loader1);
      var rest := SavesLead(k, size, stored1, loader1, stored', low);
      trace := [(stored, loader)] + rest;
    }
  }

  /**
    A sync that has just begun, or had nothing to do, and then filled the block from `p` down to
    `low`. If it got through, it has finished, and `lastLt` stands at `p` unless there was nothing to do.
  */
  lemma SyncLeads(k: nat, size: nat, queue: seq<(nat, nat)>, last: nat, p: nat, bottom: nat,
                  stored: set<nat>, stored': set<nat>, low: nat, ok: bool)
    returns (trace: seq<Situation>, final: Loader)
    requires bottom <= low <= p && Filled(stored, stored', low, p) && (ok ==> low == bottom)
    ensures var begun := Running(queue, last, if p == bottom then None else Some(Job(p, p, bottom)));
            Leads(k, size, trace, (stored, begun), (stored', final))
    ensures ok ==> final == Running(queue, if bottom < p then p else last, None)
  {
    if p == bottom {
      assert stored' == stored;
      final := Running(queue, last, None);
      trace := [(stored, final)];
    } else {
      var begun := Running(queue, last, Some(Job(p, p, bottom)));
      trace := SavesLead(k, size, stored, begun, stored', low);
      final := Running(queue, last, Some(Job(p, low, bottom)));
      if ok {
        var done := Running(queue, p, None);
        assert Finish(stored', final, stored', done);
        LeadsJoined(k, size, trace, [(stored', final), (stored', done)],
                    (stored, begun), (stored', final), (stored', done));
        trace, final := trace + [(stored', final), (stored', done)][1..], done;
      }
    }
  }

  /** One step, and what follows it. */
  lemma StepLeads(k: nat, size: nat, from: Situation, next: Situation, rest: seq<Situation>, to: Situation)
    requires LoaderStep(k, size, from.0, from.1, next.0, next.1) && Leads(k, size, rest, next, to)
    ensures Leads(k, size, [from] + rest, from, to)
  {
    assert Leads(k, size, [from, next], from, next);
    LeadsJoined(k, size, [from, next], rest, from, next, to);
    assert [from, next] + rest[1..] == [from] + rest;
  }
}
