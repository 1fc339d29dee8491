/**
 The alignment records the read counter consumes, and the specification of
 what it computes from them: how often each read name occurs on a mapped
 record, which names occur at all, and which occur more than once.

 Every definition recurses on the last record, the order in which the
 counting loop visits the file, so that a prefix of the input is the state
 of the scan after that many records.
 */
module Alignments {

  /** The two fields of an alignment record the counter reads. */
  datatype Read = Read(isUnmapped: bool, queryName: string)

  /** The record as it stands in the tally: mapped and carrying this name. */
  function Mapped(name: string): Read {
    Read(false, name)
  }

  /** Number of mapped records in `records` whose read name is `name`. */
  function Occurrences(records: seq<Read>, name: string): (count: nat)
    ensures count <= |records|
  {
    if records == [] then 0
    else
      var last := records[|records| - 1];
      Occurrences(records[..|records| - 1], name) + (if last == Mapped(name) then 1 else 0)
  }

  /** The distinct read names carried by mapped records. */
  function MappedNames(records: seq<Read>): set<string>
  {
    if records == [] then {}
    else
      var last := records[|records| - 1];
      MappedNames(records[..|records| - 1]) + (if last.isUnmapped then {} else {last.queryName})
  }

  /** Number of mapped records, whatever their names. */
  function MappedCount(records: seq<Read>): (count: nat)
    ensures count <= |records|
  {
    if records == [] then 0
    else MappedCount(records[..|records| - 1]) + (if records[|records| - 1].isUnmapped then 0 else 1)
  }

  /** The mapped read names that occur on more than one mapped record. */
  function MultiNames(records: seq<Read>): set<string>
  {
    set name | name in MappedNames(records) && Occurrences(records, name) > 1
  }

  /** Number of distinct mapped read names (the first reported number). */
  function TotalReads(records: seq<Read>): nat {
    |MappedNames(records)|
  }

  /** Number of multi-mapped read names (the second reported number). */
  function Multimappers(records: seq<Read>): nat {
    |MultiNames(records)|
  }

  /** A name is a mapped name exactly when some mapped record carries it. */
  lemma {:induction false} MappedNamesOccur(records: seq<Read>, name: string)
    ensures name in MappedNames(records) <==> Occurrences(records, name) > 0
  {
    if records != [] {
      MappedNamesOccur(records[..|records| - 1], name);
    }
  }

  /**
   The count of a name is the multiplicity of the mapped record with that
   name in the input, so it depends only on the multiset of records.
   */
  lemma {:induction false} OccurrencesIsMultiplicity(records: seq<Read>, name: string)
    ensures Occurrences(records, name) == multiset(records)[Mapped(name)]
  {
    if records != [] {
      var front, last := records[..|records| - 1], records[|records| - 1];
      OccurrencesIsMultiplicity(front, name);
      assert records == front + [last];
      assert multiset(records) == multiset(front) + multiset{last};
    }
  }

  /** Each mapped name has a count of at least one. */
  lemma {:induction false} CountsPositive(records: seq<Read>, name: string)
    requires name in MappedNames(records)
    ensures Occurrences(records, name) >= 1
  {
    MappedNamesOccur(records, name);
  }

  /** Permuting the records changes neither the counts nor the two reported numbers. */
  lemma OrderIndependent(a: seq<Read>, b: seq<Read>)
    requires multiset(a) == multiset(b)
    ensures forall name :: Occurrences(a, name) == Occurrences(b, name)
    ensures MappedNames(a) == MappedNames(b) && MultiNames(a) == MultiNames(b)
    ensures TotalReads(a) == TotalReads(b) && Multimappers(a) == Multimappers(b)
  {
    forall name
      ensures Occurrences(a, name) == Occurrences(b, name)
      ensures name in MappedNames(a) <==> name in MappedNames(b)
    {
      OccurrencesIsMultiplicity(a, name);
      OccurrencesIsMultiplicity(b, name);
      MappedNamesOccur(a, name);
      MappedNamesOccur(b, name);
    }
  }

  /** An unmapped record, wherever it stands, leaves the tally unchanged. */
  lemma UnmappedIgnored(before: seq<Read>, r: Read, after: seq<Read>)
    requires r.isUnmapped
    ensures forall name :: Occurrences(before + [r] + after, name) == Occurrences(before + after, name)
    ensures MappedNames(before + [r] + after) == MappedNames(before + after)
    ensures MultiNames(before + [r] + after) == MultiNames(before + after)
  {
    var longer, shorter := before + [r] + after, before + after;
    assert multiset(longer) == multiset(shorter) + multiset{r};
    forall name
      ensures Occurrences(longer, name) == Occurrences(shorter, name)
      ensures name in MappedNames(longer) <==> name in MappedNames(shorter)
    {
      OccurrencesIsMultiplicity(longer, name);
      OccurrencesIsMultiplicity(shorter, name);
      MappedNamesOccur(longer, name);
      MappedNamesOccur(shorter, name);
    }
  }

  /** With no mapped record at all (in particular with no record), both reported numbers are 0. */
  lemma {:induction false} NoMappedReads(records: seq<Read>)
    requires forall k :: 0 <= k < |records| ==> records[k].isUnmapped
    ensures MappedNames(records) == {} && MultiNames(records) == {}
    ensures TotalReads(records) == 0 && Multimappers(records) == 0
  {
    if records != [] {
      NoMappedReads(records[..|records| - 1]);
    }
  }

  /** There are never more distinct mapped names than mapped records. */
  lemma {:induction false} NamesAtMostRecords(records: seq<Read>)
    ensures TotalReads(records) <= MappedCount(records)
  {
    if records != [] {
      NamesAtMostRecords(records[..|records| - 1]);
    }
  }

  /** The multi-mapped names are among the mapped names, so there are at most as many. */
  lemma MultimappersAtMostTotal(records: seq<Read>)
    ensures MultiNames(records) <= MappedNames(records)
    ensures Multimappers(records) <= TotalReads(records)
  {
    SubsetCardinality(MultiNames(records), MappedNames(records));
  }

  /** Three mapped records named r1, r2, r1: two names, one of them multi-mapped. */
  lemma RepeatedNameExample()
    ensures TotalReads([Mapped("r1"), Mapped("r2"), Mapped("r1")]) == 2
    ensures Multimappers([Mapped("r1"), Mapped("r2"), Mapped("r1")]) == 1
  {
    var records := [Mapped("r1"), Mapped("r2"), Mapped("r1")];
    assert records[..2] == [Mapped("r1"), Mapped("r2")];
    assert records[..2][..1] == [Mapped("r1")];
    assert [Mapped("r1")][..0] == [];
    assert MappedNames([Mapped("r1")]) == {"r1"};
    assert MappedNames(records[..2]) == {"r1", "r2"};
    assert MappedNames(records) == {"r1", "r2"};
    assert Occurrences(records, "r1") == 2;
    assert Occurrences(records, "r2") == 1;
    assert MultiNames(records) == {"r1"};
  }

  /** Mapped r1 and r2 and an unmapped r3: two names, none multi-mapped, r3 not among them. */
  lemma UnmappedNameExample()
    ensures MappedNames([Mapped("r1"), Mapped("r2"), Read(true, "r3")]) == {"r1", "r2"}
    ensures Multimappers([Mapped("r1"), Mapped("r2"), Read(true, "r3")]) == 0
  {
    var records := [Mapped("r1"), Mapped("r2"), Read(true, "r3")];
    assert records[..2] == [Mapped("r1"), Mapped("r2")];
    assert records[..2][..1] == [Mapped("r1")];
    assert [Mapped("r1")][..0] == [];
    assert MappedNames([Mapped("r1")]) == {"r1"};
    assert MappedNames(records[..2]) == {"r1", "r2"};
    assert MappedNames(records) == {"r1", "r2"};
    assert Occurrences(records, "r1") == 1;
    assert Occurrences(records, "r2") == 1;
    assert MultiNames(records) == {};
  }

  lemma {:induction false} SubsetCardinality<T>(small: set<T>, large: set<T>)
    requires small <= large
    ensures |small| <= |large|
    decreases large
  {
    if small != {} {
      var x :| x in small;
      SubsetCardinality(small - {x}, large - {x});
    }
  }
}
