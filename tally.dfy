/**
 The read-name tally as a map from name to count, and the sum of all its
 counts, used to state that every mapped record is counted exactly once.
 */
module Tally {

  /** Sum of all counts held in the tally. */
  ghost function Total(tally: map<string, nat>): nat
    decreases tally.Keys
  {
    if tally == map[] then 0
    else
      var name :| name in tally;
      tally[name] + Total(tally - {name})
  }

  /** The sum may be split at any key, not only at the one `Total` picks. */
  lemma {:induction false} TotalRemove(tally: map<string, nat>, name: string)
    requires name in tally
    ensures Total(tally) == tally[name] + Total(tally - {name})
    decreases tally.Keys
  {
    var picked :| picked in tally && Total(tally) == tally[picked] + Total(tally - {picked});
    if picked != name {
      TotalRemove(tally - {picked}, name);
      TotalRemove(tally - {name}, picked);
      assert tally - {picked} - {name} == tally - {name} - {picked};
    }
  }

  /** Setting one count changes the sum by exactly the difference. */
  lemma TotalUpdate(tally: map<string, nat>, name: string, count: nat)
    ensures Total(tally[name := count]) == Total(tally) - (if name in tally then tally[name] else 0) + count
  {
    var updated := tally[name := count];
    TotalRemove(updated, name);
    assert updated - {name} == tally - {name};
    if name in tally {
      TotalRemove(tally, name);
    } else {
      assert tally - {name} == tally;
    }
  }
}
