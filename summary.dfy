/**
 The one line the read counter writes: the input path, the label `Reads:`,
 the number of distinct mapped read names, the label `of which
 multimappers:` and the number of multi-mapped names, separated by tabs and
 ended by a newline. Numbers are written as Python's `str` writes a
 non-negative integer: decimal digits, no sign, no leading zero.

 A parser for the line is given beside it, as its partner: the round trip
 shows that the line carries the path and both numbers unambiguously.
 */
module Summary {

  const READS_LABEL := "Reads:"
  const MULTI_LABEL := "of which multimappers:"

  datatype Option<T> = None | Some(value: T)

  /** What the line reports. */
  datatype Report = Report(path: string, total: nat, multi: nat)

  predicate IsDigit(c: char) {
    '0' <= c <= '9'
  }

  /** The value of a digit character. */
  function DigitValue(c: char): (d: nat)
    requires IsDigit(c)
    ensures d < 10
  {
    c as int - '0' as int
  }

  /** The digit character for a value below ten. */
  function DigitChar(d: nat): (c: char)
    requires d < 10
    ensures IsDigit(c) && DigitValue(c) == d
  {
    "0123456789"[d]
  }

  /** The value of a string of decimal digits, most significant first. */
  function DigitsValue(s: string): nat
    requires forall k :: 0 <= k < |s| ==> IsDigit(s[k])
  {
    if s == [] then 0
    else DigitsValue(s[..|s| - 1]) * 10 + DigitValue(s[|s| - 1])
  }

  /** A number as written in decimal: at least one digit and no leading zero. */
  predicate IsDecimal(s: string) {
    && |s| >= 1
    && (forall k :: 0 <= k < |s| ==> IsDigit(s[k]))
    && (|s| > 1 ==> s[0] != '0')
  }

  /** Decimal rendering of a natural number. */
  function DecimalString(n: nat): (s: string)
    ensures IsDecimal(s)
    ensures DigitsValue(s) == n
  {
    if n < 10 then [DigitChar(n)]
    else
      var front := DecimalString(n / 10);
      var s := front + [DigitChar(n % 10)];
      assert s[..|s| - 1] == front;
      s
  }

  /** The summary line for `path` with the two reported numbers. */
  function SummaryLine(path: string, total: nat, multi: nat): string {
    path + "\t" + READS_LABEL + "\t" + DecimalString(total) + "\t" + MULTI_LABEL + "\t" + DecimalString(multi) + "\n"
  }

  /** The pieces of `s` between occurrences of `sep`. */
  function Split(s: string, sep: char): (parts: seq<string>)
    ensures |parts| >= 1
  {
    if s == [] then [[]]
    else
      var rest := Split(s[1..], sep);
      if s[0] == sep then [[]] + rest else [[s[0]] + rest[0]] + rest[1..]
  }

  /** Reads a summary line back; `None` for any text that is not one. */
  function ParseSummary(line: string): Option<Report>
  {
    if line == [] || line[|line| - 1] != '\n' then None
    else
      var fields := Split(line[..|line| - 1], '\t');
      if && |fields| == 5
         && fields[1] == READS_LABEL && fields[3] == MULTI_LABEL
         && IsDecimal(fields[2]) && IsDecimal(fields[4])
      then Some(Report(fields[0], DigitsValue(fields[2]), DigitsValue(fields[4])))
      else None
  }

  /** A piece without the separator splits into itself. */
  lemma {:induction false} SplitNone(s: string, sep: char)
    requires sep !in s
    ensures Split(s, sep) == [s]
  {
    if s != [] {
      SplitNone(s[1..], sep);
      assert [s[0]] + s[1..] == s;
    }
  }

  /** Splitting peels off the text before the first separator. */
  lemma {:induction false} SplitFirst(front: string, sep: char, back: string)
    requires sep !in front
    ensures Split(front + [sep] + back, sep) == [front] + Split(back, sep)
  {
    if front == [] {
      assert ([sep] + back)[1..] == back;
    } else {
      var s := front + [sep] + back;
      assert s[1..] == front[1..] + [sep] + back;
      SplitFirst(front[1..], sep, back);
      assert [front[0]] + front[1..] == front;
    }
  }

  /** The tab-separated body of a summary line splits into its five fields. */
  lemma SplitFields(path: string, t: string, m: string)
    requires '\t' !in path && '\t' !in t && '\t' !in m
    ensures Split(path + "\t" + READS_LABEL + "\t" + t + "\t" + MULTI_LABEL + "\t" + m, '\t')
         == [path, READS_LABEL, t, MULTI_LABEL, m]
  {
    // The body built from its last field backwards.
    var s4 := MULTI_LABEL + ['\t'] + m;
    var s3 := t + ['\t'] + s4;
    var s2 := READS_LABEL + ['\t'] + s3;
    SplitNone(m, '\t');
    SplitFirst(MULTI_LABEL, '\t', m);
    SplitFirst(t, '\t', s4);
    SplitFirst(READS_LABEL, '\t', s3);
    SplitFirst(path, '\t', s2);
    assert path + "\t" + READS_LABEL + "\t" + t + "\t" + MULTI_LABEL + "\t" + m == path + ['\t'] + s2;
  }

  /**
   The line, read back, gives the path and both numbers, provided the path
   holds no tab (a tab in the path would shift the fields).
   */
  lemma SummaryRoundTrip(path: string, total: nat, multi: nat)
    requires '\t' !in path
    ensures ParseSummary(SummaryLine(path, total, multi)) == Some(Report(path, total, multi))
  {
    var t, m := DecimalString(total), DecimalString(multi);
    assert '\t' !in t && '\t' !in m by {
      assert !IsDigit('\t');
    }
    SplitFields(path, t, m);
    var body := path + "\t" + READS_LABEL + "\t" + t + "\t" + MULTI_LABEL + "\t" + m;
    var line := SummaryLine(path, total, multi);
    assert line == body + "\n";
    assert line[..|line| - 1] == body;
  }
}
