/**
 Migration counters and their breakdowns (redis_to_aerospike/stats.py).
 */
module Stats {

  /** A snapshot of the counters. */
  datatype Tally = Tally(
    scanned: nat,
    migrated: nat,
    skipped: nat,
    errors: nat,
    skippedByType: map<string, nat>,
    errorsByType: map<string, nat>)

  const EMPTY := Tally(0, 0, 0, 0, map[], map[])

  function Bump(counts: map<string, nat>, reason: string): map<string, nat> {
    counts[reason := (if reason in counts then counts[reason] else 0) + 1]
  }

  function Scanned(t: Tally): Tally { t.(scanned := t.scanned + 1) }

  function Migrated(t: Tally): Tally { t.(migrated := t.migrated + 1) }

  function Skipped(t: Tally, reason: string): Tally {
    t.(skipped := t.skipped + 1, skippedByType := Bump(t.skippedByType, reason))
  }

  function Errored(t: Tally, reason: string): Tally {
    t.(errors := t.errors + 1, errorsByType := Bump(t.errorsByType, reason))
  }

  /** Records that have met their final count. */
  function Counted(t: Tally): nat { t.migrated + t.skipped + t.errors }

  ghost function Total(counts: map<string, nat>): nat {
    if counts == map[] then 0
    else
      var reason :| reason in counts;
      counts[reason] + Total(counts - {reason})
  }

  lemma NothingCounted()
    ensures Consistent(EMPTY)
  {
  }

  lemma {:induction false} TotalWithout(counts: map<string, nat>, reason: string)
    requires reason in counts
    ensures Total(counts) == counts[reason] + Total(counts - {reason})
  {
    var first :| first in counts && Total(counts) == counts[first] + Total(counts - {first});
    if first != reason {
      TotalWithout(counts - {first}, reason);
      assert counts - {first} - {reason} == counts - {reason} - {first};
      TotalWithout(counts - {reason}, first);
    }
  }

  /** Counting one more reason raises the breakdown's total by exactly one. */
  lemma BumpAddsOne(counts: map<string, nat>, reason: string)
    ensures Total(Bump(counts, reason)) == Total(counts) + 1
  {
    var bumped := Bump(counts, reason);
    TotalWithout(bumped, reason);
    if reason in counts {
      TotalWithout(counts, reason);
      assert bumped - {reason} == counts - {reason};
    } else {
      assert bumped - {reason} == counts;
    }
  }

  /** Both breakdowns add up to their counters. */
  ghost predicate Consistent(t: Tally) {
    Total(t.skippedByType) == t.skipped && Total(t.errorsByType) == t.errors
  }

  lemma CountingKeepsConsistent(t: Tally, reason: string)
    requires Consistent(t)
    ensures Consistent(Scanned(t)) && Consistent(Migrated(t))
    ensures Consistent(Skipped(t, reason)) && Consistent(Errored(t, reason))
  {
    BumpAddsOne(t.skippedByType, reason);
    BumpAddsOne(t.errorsByType, reason);
  }

  class MigrationStats {
    var scanned: nat
    var migrated: nat
    var skipped: nat
    var errors: nat
    var skippedByType: map<string, nat>
    var errorsByType: map<string, nat>

    ghost function View(): Tally
      reads this
    {
      Tally(scanned, migrated, skipped, errors, skippedByType, errorsByType)
    }

    constructor ()
      ensures View() == EMPTY && Consistent(View())
    {
      scanned, migrated, skipped, errors := 0, 0, 0, 0;
      skippedByType, errorsByType := map[], map[];
    }

    method RecordScanned()
      modifies this
      ensures View() == Scanned(old(View()))
      ensures old(Consistent(View())) ==> Consistent(View())
    {
      scanned := scanned + 1;
    }

    method RecordMigrated()
      modifies this
      ensures View() == Migrated(old(View()))
      ensures old(Consistent(View())) ==> Consistent(View())
    {
      migrated := migrated + 1;
    }

    method RecordSkipped(reason: string)
      modifies this
      ensures View() == Skipped(old(View()), reason)
      ensures old(Consistent(View())) ==> Consistent(View())
    {
      BumpAddsOne(skippedByType, reason);
      skipped := skipped + 1;
      var before := if reason in skippedByType then skippedByType[reason] else 0;
      skippedByType := skippedByType[reason := before + 1];
    }

    method RecordError(reason: string)
      modifies this
      ensures View() == Errored(old(View()), reason)
      ensures old(Consistent(View())) ==> Consistent(View())
    {
      BumpAddsOne(errorsByType, reason);
      errors := errors + 1;
      var before := if reason in errorsByType then errorsByType[reason] else 0;
      errorsByType := errorsByType[reason := before + 1];
    }
  }
}
