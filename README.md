# CountMappedReadsBAM, modelled in Dafny

`CountMappedReadsBAM.py` counts the read names of the mapped alignment
records in a BAM file. It walks the records in file order and skips every
record whose unmapped flag is set. For each remaining record it adds one to a
per-name `Counter`. It then counts the names whose count is above one
("multimappers"). Finally it writes one line: the path, `Reads:`, the number
of distinct names, `of which multimappers:` and the multimapper count,
separated by tabs and ended by a newline.

The model has four modules:

- `Alignments` (`alignments.dfy`): an alignment record reduced to the two
  fields the script reads, `Read(isUnmapped, queryName)`. It defines the
  specification functions over the record sequence:
  - `Occurrences`: how many mapped records carry a name;
  - `MappedNames`: the distinct mapped names;
  - `MappedCount`: how many records are mapped;
  - `MultiNames`: the names occurring more than once;
  - `TotalReads` and `Multimappers`: the two reported numbers.
  The module also holds the lemmas about these functions.
- `Tally` (`tally.dfy`): the sum of all counts in a `map<string, nat>`, with
  the lemmas that let a loop keep track of it.
- `CountMappedReads` (`count_mapped_reads.dfy`): the script's two loops as
  methods over a local `map<string, nat>` (the `Counter`), and `Run`, the
  whole script from records to output line.
- `Summary` (`summary.dfy`): rendering a natural number in decimal as
  Python's `str` does, the summary line, and a parser for that line. The
  parser is the line's partner: the round trip shows the line carries the
  path and both numbers.

The BAM file is not read. The records reach the model as a `seq<Read>`, in
the order pysam yields them.

## Model

| member | source | states |
|---|---|---|
| `CountMappedReads.CollectReadNames` | CountMappedReadsBAM.py:25-32 | After the scan, the tally's keys are exactly the mapped read names. Each count equals the number of mapped records with that name, and every count is at least 1. The counts sum to the number of mapped records. |
| `CountMappedReads.CountMultimappers` | CountMappedReadsBAM.py:34-37 | The counter equals the number of tally entries whose count is strictly above 1, whatever order the entries are visited in. It is at most the number of entries. |
| `CountMappedReads.Run` | CountMappedReadsBAM.py:25-39 | The reported total is the number of distinct mapped names. The reported multimapper count is the number of those names carried by more than one mapped record. The count is at most the total. The output line is the summary line for the path and these two numbers. |
| `Alignments.Occurrences` | CountMappedReadsBAM.py:29-31 | A name's count never exceeds the number of records. |
| `Alignments.MappedCount` | CountMappedReadsBAM.py:29-31 | The number of mapped records never exceeds the number of records. |
| `Alignments.MappedNamesOccur` | CountMappedReadsBAM.py:29-31 | A name is a tally key if and only if at least one mapped record carries it. So a name seen only on unmapped records never becomes a key. |
| `Alignments.OccurrencesIsMultiplicity` | CountMappedReadsBAM.py:28-31 | A name's count is the multiplicity of the mapped record with that name in the input. Every alignment of a read counts once. |
| `Alignments.CountsPositive` | CountMappedReadsBAM.py:25-31 | Every key of the tally has a count of at least 1, so the tally never holds a zero entry. |
| `Alignments.UnmappedIgnored` | CountMappedReadsBAM.py:29-31 | Inserting an unmapped record anywhere in the input changes neither any count, nor the set of names, nor the set of multi-mapped names. |
| `Alignments.OrderIndependent` | CountMappedReadsBAM.py:29-39 | Two inputs with the same multiset of records give the same counts, the same names and the same two reported numbers. |
| `Alignments.NoMappedReads` | CountMappedReadsBAM.py:25-39 | With no records, or only unmapped records, both reported numbers are 0. |
| `Alignments.NamesAtMostRecords` | CountMappedReadsBAM.py:29-39 | The number of distinct mapped names is at most the number of mapped records. |
| `Alignments.MultimappersAtMostTotal` | CountMappedReadsBAM.py:34-39 | The multi-mapped names are a subset of the mapped names, so the multimapper count is at most the reported total. |
| `Alignments.RepeatedNameExample` | CountMappedReadsBAM.py:29-39 | Mapped records r1, r2, r1 give 2 names, of which 1 is multi-mapped. |
| `Alignments.UnmappedNameExample` | CountMappedReadsBAM.py:29-39 | Mapped r1 and r2 plus an unmapped r3 give the names {r1, r2} and no multimapper. |
| `Summary.DecimalString` | CountMappedReadsBAM.py:39 | `str` of a count is a non-empty digit string without a leading zero, and its decimal value is the count. |
| `Summary.SummaryRoundTrip` | CountMappedReadsBAM.py:39 | The summary line has the fields path, `Reads:`, total, `of which multimappers:`, multimapper count, joined by tabs and ended by a newline. Parsing it gives back the path and both numbers, when the path holds no tab. |

## Left out

- Command-line parsing with argparse and its usage error (CountMappedReadsBAM.py:17-19). The path is a parameter of `Run`.
- Opening, decoding, iterating and closing the BAM file through `pysam.AlignmentFile` (CountMappedReadsBAM.py:27,29,32). This is foreign file I/O. The records are an input sequence of `(isUnmapped, queryName)` values instead.
- pysam's exceptions on a missing or corrupt file. The script does not handle them itself. The script also closes the file without a `try`/`finally`, so the file stays open if iteration raises. This is not modelled.
- The write to standard output (CountMappedReadsBAM.py:39). Only the line's construction is modelled.
- The usage and version strings and the unused `re` and `os` imports (CountMappedReadsBAM.py:3,14-15). They have no behaviour.
- The order of the multimapper loop: the script visits `readID.items()` in the Counter's insertion order. The model picks the remaining keys in an unspecified order instead. The result is the same for every order, and the postcondition states it for all of them.
