/**
 The read counter itself: one pass over the alignment records that tallies
 the read name of every mapped record in a map, one pass over the tally that
 counts the names seen more than once, and the summary line built from the
 two numbers. Opening and reading the alignment file is outside the model:
 the records arrive as a sequence, in file order.
 */
module CountMappedReads {
  import opened Alignments
  import Tally
  import Summary

  /**
   The tally loop. A missing name counts as 0, as in a Counter, so the first
   mapped record of a name creates its entry with count 1.
   */
  method CollectReadNames(records: seq<Read>) returns (readID: map<string, nat>)
    ensures readID.Keys == MappedNames(records)
    ensures forall name :: name in readID ==> readID[name] == Occurrences(records, name)
    ensures forall name :: name in readID ==> readID[name] >= 1
    ensures Tally.Total(readID) == MappedCount(records)
  {
    readID := map[];
    for j := 0 to |records|
      invariant readID.Keys == MappedNames(records[..j])
      invariant forall name :: name in readID ==> readID[name] == Occurrences(records[..j], name)
      invariant Tally.Total(readID) == MappedCount(records[..j])
    {
      var read := records[j];
      assert records[..j + 1][..j] == records[..j];
      forall name
        ensures Occurrences(records[..j + 1], name)
             == Occurrences(records[..j], name) + (if read == Mapped(name) then 1 else 0)
      {
      }
      if !read.isUnmapped {
        var name := read.queryName;
        var count := if name in readID then readID[name] else 0;
        MappedNamesOccur(records[..j], name);
        Tally.TotalUpdate(readID, name, count + 1);
        readID := readID[name := count + 1];
      }
    }
    assert records[..|records|] == records;
    forall name | name in readID
      ensures readID[name] >= 1
    {
      CountsPositive(records, name);
    }
  }

  /** The names in the tally whose count is above one. */
  function MultiKeys(readID: map<string, nat>): set<string>
  {
    set name | name in readID && readID[name] > 1
  }

  /**
   The multimapper loop: visits every entry of the tally once, in an order
   left open, and counts those whose count is above one.
   */
  method CountMultimappers(readID: map<string, nat>) returns (i: nat)
    ensures i == |MultiKeys(readID)|
    ensures i <= |readID|
  {
    i := 0;
    var remaining := readID.Keys;
    while remaining != {}
      invariant remaining <= readID.Keys
      invariant i == |MultiKeys(readID) - remaining|
      decreases remaining
    {
      var name :| name in remaining;
      if readID[name] > 1 {
        assert MultiKeys(readID) - (remaining - {name}) == (MultiKeys(readID) - remaining) + {name};
        i := i + 1;
      } else {
        assert MultiKeys(readID) - (remaining - {name}) == MultiKeys(readID) - remaining;
      }
      remaining := remaining - {name};
    }
    assert MultiKeys(readID) - {} == MultiKeys(readID);
    SubsetCardinality(MultiKeys(readID), readID.Keys);
  }

  /**
   The whole run on the records of the file at `path`: the number of distinct
   mapped read names, how many of them are multi-mapped, and the line written.
   */
  method Run(path: string, records: seq<Read>) returns (total: nat, multi: nat, line: string)
    ensures total == TotalReads(records) && multi == Multimappers(records)
    ensures multi <= total
    ensures line == Summary.SummaryLine(path, total, multi)
  {
    var readID := CollectReadNames(records);
    total := |readID|;
    multi := CountMultimappers(readID);
    assert MultiKeys(readID) == MultiNames(records);
    line := Summary.SummaryLine(path, total, multi);
  }
}
