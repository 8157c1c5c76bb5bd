/**
 * The `ecs` client object: its connection settings, the host it talks to, and the list
 * of retention classes that `parse_csv` fills from the retention file.
 */
module EcsClient {
  import opened Wrappers
  import opened Text
  import opened Hostname
  import opened Retention

  class Ecs {
    var user: string
    var password: string
    var namespace: string
    var csvFilename: string
    var hostname: string
    var testrun: bool
    /** The classes read so far, in file order. */
    var retClasses: seq<RetentionClass>

    /**
     * Every stored class is named by one whitespace-free token of the file. The
     * constructor establishes it and `ParseCsv` keeps it, so it holds of every object.
     */
    ghost predicate Valid()
      reads this
    {
      AllNamed(retClasses)
    }

    /**
     * The settings come from the command line; the host is stored without its
     * `https://` or `HTTPS://` scheme, and no class has been read yet.
     */
    constructor (hostaddress: string, username: string, password: string, namespace: string,
                 csvFilename: string, testrun: bool)
      ensures this.user == username && this.password == password
      ensures this.namespace == namespace && this.csvFilename == csvFilename
      ensures this.testrun == testrun
      ensures this.hostname == NormalizeHost(hostaddress)
      ensures this.retClasses == []
      ensures Valid()
    {
      this.user := username;
      this.password := password;
      this.namespace := namespace;
      this.csvFilename := csvFilename;
      this.hostname := RemoveAll(RemoveAll(hostaddress, "https://"), "HTTPS://");
      this.retClasses := [];
      this.testrun := testrun;
    }

    /**
     * Reads the retention file, given as its lines, and appends one class per line.
     * The quantity and the unit of the last keyword survive from one line to the next.
     * At the first line that raises, the classes of the lines before it stay appended
     * and the exception is returned.
     */
    method ParseCsv(lines: seq<string>) returns (err: Option<ParseError>)
      modifies this`retClasses
      ensures retClasses == old(retClasses) + ParseFile(lines).records
      requires Valid()
      ensures err == ParseFile(lines).error
      ensures Valid()
    {
      ghost var start := retClasses;
      var colNumber: Option<int> := None;
      var seconds: Option<int> := None;
      var i := 0;
      while i < |lines|
        invariant 0 <= i <= |lines|
        invariant |start| <= |retClasses| && retClasses[..|start|] == start
        invariant ParseFile(lines[..i]) == FileState(retClasses[|start|..], Carry(colNumber, seconds), None)
        invariant Valid()
      {
        var cols := Split(lines[i]);
        var row := ScanRow(colNumber, seconds, cols);
        if row.Err? {
          err := Some(ParseError(i, row.error));
          ParseFileLineFails(lines, i, row.error);
          ParseFileSticky(lines, i + 1);
          KeepPrefix(start, retClasses);
          return;
        }
        if cols == [] {
          err := Some(ParseError(i, NoTokens));
          ParseFileLineFails(lines, i, NoTokens);
          ParseFileSticky(lines, i + 1);
          KeepPrefix(start, retClasses);
          return;
        }
        ParseFileLineOk(lines, i, row.value);
        var rec := RetentionClass(cols[0], row.value.period);
        AppendKeepsPrefix(start, retClasses, rec);
        AllNamedAppend(retClasses, rec);
        retClasses := retClasses + [rec];
        colNumber, seconds := row.value.colNumber, row.value.seconds;
        i := i + 1;
      }
      assert lines[..i] == lines;
      KeepPrefix(start, retClasses);
      err := None;
    }
  }

  /**
   * The loop over the words of one row. The quantity and the unit start from the values
   * the previous rows left; the period starts from zero.
   */
  method ScanRow(colNumber: Option<int>, seconds: Option<int>, cols: seq<string>)
      returns (r: Result<Scan, Fault>)
    ensures r == ScanTokens(Scan(colNumber, seconds, 0), ClassifyAll(cols))
  {
    var q, u, period := colNumber, seconds, 0;
    var j := 0;
    while j < |cols|
      invariant 0 <= j <= |cols|
      invariant ScanTokens(Scan(colNumber, seconds, 0), ClassifyAll(cols[..j])) == Ok(Scan(q, u, period))
    {
      ScanTokensNext(Scan(colNumber, seconds, 0), cols, j, Scan(q, u, period));
      var next := ScanWord(Scan(q, u, period), cols[j]);
      if next.Err? {
        r := next;
        RowRaises(Scan(colNumber, seconds, 0), cols, j);
        return;
      }
      q, u, period := next.value.colNumber, next.value.seconds, next.value.period;
      j := j + 1;
    }
    assert cols[..j] == cols;
    r := Ok(Scan(q, u, period));
  }

  /**
   * The body of the loop over the words, on one word: `int(col)`, then the keyword
   * test, the chain of unit tests and the sum. A keyword with no quantity, or with no
   * unit ever set, raises; `col_number` is read first, so its absence is reported first.
   */
  method ScanWord(st: Scan, col: string) returns (r: Result<Scan, Fault>)
    ensures r == StepToken(st, Classify(col))
  {
    var colNumber, seconds := st.colNumber, st.seconds;
    var n := ParseInt(col);
    if n.Some? {
      colNumber := n;
    }
    if IsUnitKeyword(col) {
      var s := UnitSeconds(col);
      if s.Some? {
        seconds := s;
      }
      if colNumber.None? {
        return Err(QuantityUnbound);
      }
      if seconds.None? {
        return Err(UnitUnbound);
      }
      return Ok(Scan(colNumber, seconds, st.period + colNumber.value * seconds.value));
    }
    return Ok(Scan(colNumber, seconds, st.period));
  }

  /** Every class is named by a whitespace-free token. */
  predicate AllNamed(s: seq<RetentionClass>) {
    forall k :: 0 <= k < |s| ==> IsToken(s[k].name)
  }

  lemma AllNamedAppend(s: seq<RetentionClass>, x: RetentionClass)
    requires IsToken(x.name)
    ensures AllNamed(s + [x]) <==> AllNamed(s)
  {
    assert (s + [x])[..|s|] == s;
  }

  /** Appending to a sequence that starts with `p` keeps `p` in front. */
  lemma AppendKeepsPrefix(p: seq<RetentionClass>, s: seq<RetentionClass>, x: RetentionClass)
    requires |p| <= |s| && s[..|p|] == p
    ensures (s + [x])[..|p|] == p && (s + [x])[|p|..] == s[|p|..] + [x]
  {
  }

  /** A sequence that starts with `p` is `p` followed by the rest. */
  lemma KeepPrefix(p: seq<RetentionClass>, s: seq<RetentionClass>)
    requires |p| <= |s| && s[..|p|] == p
    ensures s == p + s[|p|..]
  {
  }
}
