/**
 * The retention-file parser of `ecs.parse_csv`, as pure functions over the lines of the
 * file. The class in ecs.dfy runs the same computation with loops and is proved equal
 * to `ParseFile`.
 *
 * Per line: split on whitespace; scan every token, the name included; a token that
 * `int()` accepts becomes the current quantity; a unit keyword adds
 * quantity × unit-seconds to the line's period. The quantity and the unit-seconds are
 * never reset, neither between tokens nor between lines.
 *
 * The loop only ever asks three questions of a token (does `int()` accept it, is it in
 * the keyword list, which unit-seconds does it assign), so the token loop is stated
 * over the answers, a `Token`, and `Classify` asks them of a string.
 */
module Retention {
  import opened Wrappers
  import opened Text

  /** The membership list of the keyword test. */
  const UnitKeywords: seq<string> :=
    ["year", "month", "day", "hrs", "min", "years", "months", "days", "mins"]

  predicate IsUnitKeyword(col: string) {
    col in UnitKeywords
  }

  /**
   * The unit-seconds a keyword assigns. `"mins"` passes the keyword test but assigns
   * nothing, so it leaves the previous unit in place.
   */
  function UnitSeconds(col: string): (r: Option<int>)
    ensures r.Some? <==> IsUnitKeyword(col) && col != "mins"
    ensures r.Some? ==> r.value > 0 && r.value % 60 == 0
  {
    if col == "year" || col == "years" then Some(365 * 24 * 60 * 60)
    else if col == "month" || col == "months" then Some(30 * 24 * 60 * 60)
    else if col == "day" || col == "days" then Some(24 * 60 * 60)
    else if col == "hrs" then Some(60 * 60)
    else if col == "min" then Some(60)
    else None
  }

  /** One `{'name': ..., 'period': ...}` entry of `ret_classes`. */
  datatype RetentionClass = RetentionClass(name: string, period: int)

  /**
   * What Python raises: `IndexError` on `cols[0]` for a line without tokens,
   * `UnboundLocalError` when `col_number` or `seconds` is read before any assignment.
   */
  datatype Fault = NoTokens | QuantityUnbound | UnitUnbound

  /** The exception, and the zero-based index of the line that raised it. */
  datatype ParseError = ParseError(line: nat, fault: Fault)

  /**
   * What the token loop learns from one token: the value `int()` gives it, whether it
   * passes the keyword test, and the unit-seconds it assigns.
   */
  datatype Token = Token(number: Option<int>, keyword: bool, unit: Option<int>)

  function Classify(col: string): (t: Token)
    ensures t.unit.Some? ==> t.keyword && t.unit.value > 0
    ensures t.keyword ==> t.number.None?
    ensures t.keyword <==> col in UnitKeywords
  {
    Token(ParseInt(col), IsUnitKeyword(col), UnitSeconds(col))
  }

  /** `Classify` on every token, in order. */
  function ClassifyAll(cols: seq<string>): (ts: seq<Token>)
    ensures |ts| == |cols|
    decreases |cols|
  {
    if cols == [] then [] else ClassifyAll(cols[..|cols| - 1]) + [Classify(cols[|cols| - 1])]
  }

  /** The locals of the token loop: `col_number`, `seconds` and `ret_period`. */
  datatype Scan = Scan(colNumber: Option<int>, seconds: Option<int>, period: int)

  /** The locals that outlive a line: `col_number` and `seconds`. */
  datatype Carry = Carry(colNumber: Option<int>, seconds: Option<int>)

  /** One iteration of the token loop. */
  function StepToken(st: Scan, t: Token): (r: Result<Scan, Fault>)
    ensures r.Err? ==> t.keyword && r.error != NoTokens
    ensures r.Ok? && !t.keyword ==> r.value.period == st.period && r.value.seconds == st.seconds
    ensures r.Ok? && t.number.None? ==> r.value.colNumber == st.colNumber
  {
    var q := if t.number.Some? then t.number else st.colNumber;
    if !t.keyword then Ok(st.(colNumber := q))
    else
      var u := if t.unit.Some? then t.unit else st.seconds;
      if q.None? then Err(QuantityUnbound)
      else if u.None? then Err(UnitUnbound)
      else Ok(Scan(q, u, st.period + q.value * u.value))
  }

  /** The token loop over `ts`, stopping at the first exception. */
  function ScanTokens(st: Scan, ts: seq<Token>): (r: Result<Scan, Fault>)
    ensures r.Err? ==> r.error != NoTokens
    decreases |ts|
  {
    if ts == [] then Ok(st)
    else
      match ScanTokens(st, ts[..|ts| - 1])
      case Err(f) => Err(f)
      case Ok(s) => StepToken(s, ts[|ts| - 1])
  }

  /** One line: scan its tokens from period 0, then take `cols[0]` as the name. */
  function ParseLine(c: Carry, line: string): (r: Result<(RetentionClass, Carry), Fault>)
    ensures r.Ok? ==> Split(line) != [] && r.value.0.name == Split(line)[0]
    ensures r == Err(NoTokens) <==> Split(line) == []
  {
    var cols := Split(line);
    match ScanTokens(Scan(c.colNumber, c.seconds, 0), ClassifyAll(cols))
    case Err(f) => Err(f)
    case Ok(st) =>
      if cols == [] then Err(NoTokens)
      else Ok((RetentionClass(cols[0], st.period), Carry(st.colNumber, st.seconds)))
  }

  /**
   * What `parse_csv` has done after the lines `lines`: the records appended so far, the
   * carried locals, and the exception, if one was raised.
   */
  datatype FileState = FileState(records: seq<RetentionClass>, carry: Carry, error: Option<ParseError>)

  /** The outer loop over the lines, stopping at the first exception. */
  function ParseFile(lines: seq<string>): (r: FileState)
    ensures r.error.None? ==> |r.records| == |lines|
    ensures r.error.Some? ==> r.error.value.line < |lines| && |r.records| == r.error.value.line
    decreases |lines|
  {
    if lines == [] then FileState([], Carry(None, None), None)
    else
      var prev := ParseFile(lines[..|lines| - 1]);
      if prev.error.Some? then prev
      else
        match ParseLine(prev.carry, lines[|lines| - 1])
        case Ok((rec, c)) => FileState(prev.records + [rec], c, None)
        case Err(f) => FileState(prev.records, prev.carry, Some(ParseError(|lines| - 1, f)))
  }

  // ---------------------------------------------------------------------------------
  // A reference definition of the quantity, the unit and the period, stated per token
  // instead of by threading the loop's variables.

  /** The value of the most recent token in `ts` that `int()` accepts, else `q`. */
  function LastInt(q: Option<int>, ts: seq<Token>): Option<int>
    decreases |ts|
  {
    if ts == [] then q
    else if ts[|ts| - 1].number.Some? then ts[|ts| - 1].number
    else LastInt(q, ts[..|ts| - 1])
  }

  /** Whether a token assigns a unit: a keyword with unit-seconds of its own. */
  predicate AssignsUnit(t: Token) {
    t.keyword && t.unit.Some?
  }

  /** The unit-seconds of the most recent keyword in `ts` that assigns one, else `u`. */
  function LastUnit(u: Option<int>, ts: seq<Token>): Option<int>
    decreases |ts|
  {
    if ts == [] then u
    else if AssignsUnit(ts[|ts| - 1]) then ts[|ts| - 1].unit
    else LastUnit(u, ts[..|ts| - 1])
  }

  /** Every keyword in `ts` has a quantity and a unit when it is reached. */
  predicate Bound(q: Option<int>, u: Option<int>, ts: seq<Token>)
    decreases |ts|
  {
    ts == [] ||
    (Bound(q, u, ts[..|ts| - 1]) &&
     (ts[|ts| - 1].keyword ==> LastInt(q, ts).Some? && LastUnit(u, ts).Some?))
  }

  /** What token `k` adds to the period: quantity × unit-seconds if it is a keyword. */
  function Term(q: Option<int>, u: Option<int>, ts: seq<Token>, k: nat): int
    requires k < |ts|
  {
    var quantity, unit := LastInt(q, ts[..k + 1]), LastUnit(u, ts[..k + 1]);
    if ts[k].keyword && quantity.Some? && unit.Some? then quantity.value * unit.value else 0
  }

  /** The sum of `Term` over all of `ts`. */
  function PeriodSum(q: Option<int>, u: Option<int>, ts: seq<Token>): int
    decreases |ts|
  {
    if ts == [] then 0 else PeriodSum(q, u, ts[..|ts| - 1]) + Term(q, u, ts, |ts| - 1)
  }

  /** The whitespace-separated words of `lines`, in order. */
  function Words(lines: seq<string>): seq<string>
    decreases |lines|
  {
    if lines == [] then [] else Words(lines[..|lines| - 1]) + Split(lines[|lines| - 1])
  }

  /** The classified tokens of `lines`, in order. */
  function Tokens(lines: seq<string>): seq<Token>
    decreases |lines|
  {
    if lines == [] then [] else Tokens(lines[..|lines| - 1]) + ClassifyAll(Split(lines[|lines| - 1]))
  }

  // ---------------------------------------------------------------------------------
  // The keyword table.

  /** The seconds of a year and of a month. */
  lemma LongUnits()
    ensures UnitSeconds("year") == UnitSeconds("years") == Some(31536000)
    ensures UnitSeconds("month") == UnitSeconds("months") == Some(2592000)
  {
  }

  /** The seconds of a day, an hour and a minute. */
  lemma ShortUnits()
    ensures UnitSeconds("day") == UnitSeconds("days") == Some(86400)
    ensures UnitSeconds("hrs") == Some(3600)
    ensures UnitSeconds("min") == Some(60)
  {
  }

  /**
   * `"mins"` is a keyword that assigns no unit, so it reuses the unit in force; the
   * quantity in force is untouched too.
   */
  lemma MinsReusesUnit(q: Option<int>, u: Option<int>, ts: seq<Token>)
    ensures Classify("mins") == Token(None, true, None)
    ensures LastUnit(u, ts + [Classify("mins")]) == LastUnit(u, ts)
    ensures LastInt(q, ts + [Classify("mins")]) == LastInt(q, ts)
  {
    assert ParseInt("mins") == None;
    assert (ts + [Classify("mins")])[..|ts|] == ts;
  }

  // ---------------------------------------------------------------------------------
  // Classification of a sequence of words.

  lemma {:induction false} ClassifyAllIndex(cols: seq<string>)
    ensures forall k :: 0 <= k < |cols| ==> ClassifyAll(cols)[k] == Classify(cols[k])
    decreases |cols|
  {
    if cols != [] {
      var init := cols[..|cols| - 1];
      ClassifyAllIndex(init);
      forall k | 0 <= k < |init|
        ensures init[k] == cols[k]
      {
      }
    }
  }

  lemma {:induction false} ClassifyAllAppend(a: seq<string>, b: seq<string>)
    ensures ClassifyAll(a + b) == ClassifyAll(a) + ClassifyAll(b)
    decreases |b|
  {
    if b == [] {
      assert a + b == a;
    } else {
      var init := b[..|b| - 1];
      assert (a + b)[..|a + b| - 1] == a + init;
      ClassifyAllAppend(a, init);
    }
  }

  /** The tokens of `lines` are the classified words of `lines`. */
  lemma {:induction false} TokensWords(lines: seq<string>)
    ensures Tokens(lines) == ClassifyAll(Words(lines))
    decreases |lines|
  {
    if lines != [] {
      var init := lines[..|lines| - 1];
      TokensWords(init);
      ClassifyAllAppend(Words(init), Split(lines[|lines| - 1]));
    }
  }

  // ---------------------------------------------------------------------------------
  // The token loop against the reference definition.

  /**
   * A line without unit keywords cannot fail and contributes nothing: its period stays
   * where it started and the unit in force is unchanged.
   */
  lemma {:induction false} NoKeywordScan(st: Scan, ts: seq<Token>)
    requires forall k :: 0 <= k < |ts| ==> !ts[k].keyword
    ensures ScanTokens(st, ts).Ok?
    ensures ScanTokens(st, ts).value.period == st.period
    ensures ScanTokens(st, ts).value.seconds == st.seconds
    decreases |ts|
  {
    if ts != [] {
      NoKeywordScan(st, ts[..|ts| - 1]);
    }
  }

  /** A line without unit keywords gets period 0. */
  lemma NoKeywordLine(c: Carry, line: string)
    requires Split(line) != []
    requires forall k :: 0 <= k < |Split(line)| ==> !IsUnitKeyword(Split(line)[k])
    ensures ParseLine(c, line).Ok? && ParseLine(c, line).value.0 == RetentionClass(Split(line)[0], 0)
    ensures ParseLine(c, line).value.1.seconds == c.seconds
  {
    ClassifyAllIndex(Split(line));
    NoKeywordScan(Scan(c.colNumber, c.seconds, 0), ClassifyAll(Split(line)));
  }

  /**
   * One token in terms of the quantity and unit in force after it: the step fails
   * exactly at a keyword with either missing, and otherwise adds their product at a
   * keyword and nothing elsewhere.
   */
  lemma StepTokenSpec(st: Scan, t: Token)
    ensures var q := if t.number.Some? then t.number else st.colNumber;
            var u := if AssignsUnit(t) then t.unit else st.seconds;
            (StepToken(st, t).Ok? <==> (t.keyword ==> q.Some? && u.Some?)) &&
            (StepToken(st, t).Ok? ==>
               StepToken(st, t).value ==
                 Scan(q, u, st.period + (if t.keyword then q.value * u.value else 0)))
  {
  }

  /** `Bound` stated token by token. */
  lemma {:induction false} BoundEvery(q: Option<int>, u: Option<int>, ts: seq<Token>)
    ensures Bound(q, u, ts) <==>
              forall k :: 0 <= k < |ts| && ts[k].keyword ==>
                LastInt(q, ts[..k + 1]).Some? && LastUnit(u, ts[..k + 1]).Some?
    decreases |ts|
  {
    if ts != [] {
      var n := |ts| - 1;
      var init := ts[..n];
      BoundEvery(q, u, init);
      forall k | 0 <= k < n
        ensures init[..k + 1] == ts[..k + 1] && init[k] == ts[k]
      {
      }
      assert ts[..n + 1] == ts;
    }
  }

  /** The reference definitions over one more token. */
  lemma LastSnoc(q: Option<int>, u: Option<int>, ts: seq<Token>)
    requires ts != []
    ensures var init, last := ts[..|ts| - 1], ts[|ts| - 1];
            LastInt(q, ts) == (if last.number.Some? then last.number else LastInt(q, init)) &&
            LastUnit(u, ts) == (if AssignsUnit(last) then last.unit else LastUnit(u, init))
    ensures var init, last := ts[..|ts| - 1], ts[|ts| - 1];
            var quantity, unit := LastInt(q, ts), LastUnit(u, ts);
            PeriodSum(q, u, ts) ==
              PeriodSum(q, u, init) +
              (if last.keyword && quantity.Some? && unit.Some? then quantity.value * unit.value else 0)
  {
    assert ts[..|ts|] == ts;
  }

  /** One more token keeps the loop in step with the reference definition. */
  lemma ScanTokensSnoc(q: Option<int>, u: Option<int>, p: int, ts: seq<Token>)
    requires ts != []
    requires var init := ts[..|ts| - 1];
             ScanTokens(Scan(q, u, p), init) == Ok(Scan(LastInt(q, init), LastUnit(u, init), p + PeriodSum(q, u, init)))
    ensures ScanTokens(Scan(q, u, p), ts).Ok? <==>
              (ts[|ts| - 1].keyword ==> LastInt(q, ts).Some? && LastUnit(u, ts).Some?)
    ensures ScanTokens(Scan(q, u, p), ts).Ok? ==>
              ScanTokens(Scan(q, u, p), ts) == Ok(Scan(LastInt(q, ts), LastUnit(u, ts), p + PeriodSum(q, u, ts)))
  {
    var init, last := ts[..|ts| - 1], ts[|ts| - 1];
    var st := Scan(LastInt(q, init), LastUnit(u, init), p + PeriodSum(q, u, init));
    LastSnoc(q, u, ts);
    StepTokenSpec(st, last);
  }

  /**
   * The token loop agrees with the reference definition: it runs to the end exactly
   * when every keyword has a quantity and a unit, and then it leaves the most recent
   * integer, the most recent unit and the sum of the per-keyword terms.
   */
  lemma {:induction false} ScanTokensSpec(q: Option<int>, u: Option<int>, p: int, ts: seq<Token>)
    ensures ScanTokens(Scan(q, u, p), ts).Ok? <==> Bound(q, u, ts)
    ensures Bound(q, u, ts) ==>
              ScanTokens(Scan(q, u, p), ts) == Ok(Scan(LastInt(q, ts), LastUnit(u, ts), p + PeriodSum(q, u, ts)))
    decreases |ts|
  {
    if ts != [] {
      var init := ts[..|ts| - 1];
      ScanTokensSpec(q, u, p, init);
      if Bound(q, u, init) {
        ScanTokensSnoc(q, u, p, ts);
      }
    }
  }

  /** `LastInt` and `LastUnit` over a concatenation: the second part continues the first. */
  lemma {:induction false} LastAppend(q: Option<int>, u: Option<int>, a: seq<Token>, b: seq<Token>)
    ensures LastInt(q, a + b) == LastInt(LastInt(q, a), b)
    ensures LastUnit(u, a + b) == LastUnit(LastUnit(u, a), b)
    decreases |b|
  {
    if b == [] {
      assert a + b == a;
    } else {
      assert (a + b)[..|a + b| - 1] == a + b[..|b| - 1];
      LastAppend(q, u, a, b[..|b| - 1]);
    }
  }

  /** With no integer token at all, there is no quantity; likewise for units. */
  lemma {:induction false} LastNone(ts: seq<Token>)
    ensures (forall k :: 0 <= k < |ts| ==> ts[k].number.None?) ==> LastInt(None, ts) == None
    ensures (forall k :: 0 <= k < |ts| ==> !AssignsUnit(ts[k])) ==> LastUnit(None, ts) == None
    decreases |ts|
  {
    if ts != [] {
      LastNone(ts[..|ts| - 1]);
    }
  }

  // ---------------------------------------------------------------------------------
  // The file loop.

  /** Once a prefix of the file has raised, the rest of the file is never read. */
  lemma {:induction false} ParseFileSticky(lines: seq<string>, m: nat)
    requires m <= |lines|
    requires ParseFile(lines[..m]).error.Some?
    ensures ParseFile(lines) == ParseFile(lines[..m])
    decreases |lines| - m
  {
    if m < |lines| {
      var init := lines[..|lines| - 1];
      assert init[..m] == lines[..m];
      ParseFileSticky(init, m);
    } else {
      assert lines[..m] == lines;
    }
  }

  /**
   * The carried `col_number` and `seconds` after a file that parsed are the most recent
   * integer and unit among all of its tokens, names and earlier lines included.
   */
  lemma {:induction false} ParseFileCarry(lines: seq<string>)
    requires ParseFile(lines).error.None?
    ensures ParseFile(lines).carry == Carry(LastInt(None, Tokens(lines)), LastUnit(None, Tokens(lines)))
    decreases |lines|
  {
    if lines != [] {
      var init := lines[..|lines| - 1];
      var prev := ParseFile(init);
      ParseFileCarry(init);
      var ts := ClassifyAll(Split(lines[|lines| - 1]));
      ScanTokensSpec(prev.carry.colNumber, prev.carry.seconds, 0, ts);
      LastAppend(None, None, Tokens(init), ts);
    }
  }

  /**
   * Record `k` is named after the first token of line `k`, and its period is the sum,
   * over the keywords of that line, of the quantity × unit in force at each keyword,
   * where the quantity and unit may come from earlier lines.
   */
  lemma {:induction false} ParseFileRecord(lines: seq<string>, k: nat)
    requires k < |ParseFile(lines).records|
    ensures Split(lines[k]) != []
    ensures ParseFile(lines).records[k] ==
              RetentionClass(Split(lines[k])[0],
                             PeriodSum(LastInt(None, Tokens(lines[..k])), LastUnit(None, Tokens(lines[..k])),
                                       ClassifyAll(Split(lines[k]))))
    decreases |lines|
  {
    var init := lines[..|lines| - 1];
    var prev := ParseFile(init);
    if k < |prev.records| {
      assert init[..k] == lines[..k] && init[k] == lines[k];
      ParseFileRecord(init, k);
    } else {
      assert k == |init| && lines[..k] == init;
      ParseFileCarry(init);
      ScanTokensSpec(prev.carry.colNumber, prev.carry.seconds, 0, ClassifyAll(Split(lines[k])));
    }
  }

  /**
   * When parsing stops at line `k`, the lines before it parsed, nothing of line `k` was
   * appended, and line `k` either has no tokens or has a keyword with no quantity or
   * no unit in force.
   */
  lemma ParseFileError(lines: seq<string>)
    requires ParseFile(lines).error.Some?
    ensures var e := ParseFile(lines).error.value;
            var before := ParseFile(lines[..e.line]);
            var ts := Tokens(lines[..e.line]);
            before.error.None? && ParseFile(lines).records == before.records &&
            (e.fault == NoTokens <==> Split(lines[e.line]) == []) &&
            (e.fault != NoTokens ==>
               !Bound(LastInt(None, ts), LastUnit(None, ts), ClassifyAll(Split(lines[e.line]))))
  {
    var k := ParseFile(lines).error.value.line;
    ParseFileErrorAt(lines, k);
  }

  lemma {:induction false} ParseFileErrorAt(lines: seq<string>, k: nat)
    requires ParseFile(lines).error.Some? && ParseFile(lines).error.value.line == k
    ensures k < |lines|
    ensures ParseFile(lines[..k]).error.None? && ParseFile(lines).records == ParseFile(lines[..k]).records
    ensures ParseFile(lines).error.value.fault == NoTokens <==> Split(lines[k]) == []
    ensures ParseFile(lines).error.value.fault != NoTokens ==>
              !Bound(LastInt(None, Tokens(lines[..k])), LastUnit(None, Tokens(lines[..k])), ClassifyAll(Split(lines[k])))
    decreases |lines|
  {
    var init := lines[..|lines| - 1];
    var prev := ParseFile(init);
    if prev.error.Some? {
      assert init[..k] == lines[..k] && init[k] == lines[k];
      ParseFileErrorAt(init, k);
    } else {
      assert k == |init| && lines[..k] == init;
      ParseFileCarry(init);
      ScanTokensSpec(prev.carry.colNumber, prev.carry.seconds, 0, ClassifyAll(Split(lines[k])));
    }
  }

  /** A line fails when it has no tokens or a keyword with nothing in force. */
  lemma ParseLineFails(c: Carry, line: string)
    requires Split(line) == [] || !Bound(c.colNumber, c.seconds, ClassifyAll(Split(line)))
    ensures ParseLine(c, line).Err?
  {
    ScanTokensSpec(c.colNumber, c.seconds, 0, ClassifyAll(Split(line)));
  }

  /** `ParseFile` on one more line than a prefix that parsed. */
  lemma ParseFileNext(lines: seq<string>, k: nat)
    requires k < |lines| && ParseFile(lines[..k]).error.None?
    ensures var before := ParseFile(lines[..k]);
            ParseFile(lines[..k + 1]) ==
              match ParseLine(before.carry, lines[k])
              case Ok((rec, c)) => FileState(before.records + [rec], c, None)
              case Err(f) => FileState(before.records, before.carry, Some(ParseError(k, f)))
  {
    var upto := lines[..k + 1];
    assert upto[..k] == lines[..k] && upto[k] == lines[k];
  }

  /** A failing line `k` after a prefix that parsed: the prefix up to `k` has raised. */
  lemma ParseFileNextFails(lines: seq<string>, k: nat)
    requires k < |lines| && ParseFile(lines[..k]).error.None?
    requires ParseLine(ParseFile(lines[..k]).carry, lines[k]).Err?
    ensures ParseFile(lines[..k + 1]).error.Some? && ParseFile(lines[..k + 1]).error.value.line == k
    ensures ParseFile(lines[..k + 1]).records == ParseFile(lines[..k]).records
  {
    ParseFileNext(lines, k);
  }

  /** Once line `k` has raised, the whole file stops there. */
  lemma ParseFileStops(lines: seq<string>, k: nat)
    requires k < |lines|
    requires ParseFile(lines[..k + 1]).error.Some? && ParseFile(lines[..k + 1]).error.value.line == k
    ensures ParseFile(lines).error.Some? && ParseFile(lines).error.value.line == k
    ensures ParseFile(lines).records == ParseFile(lines[..k + 1]).records
  {
    ParseFileSticky(lines, k + 1);
  }

  /** Line `k` fails with the carry the reference definitions give before it. */
  lemma PrefixLineFails(lines: seq<string>, k: nat)
    requires k < |lines| && ParseFile(lines[..k]).error.None?
    requires var ts := Tokens(lines[..k]);
             Split(lines[k]) == [] || !Bound(LastInt(None, ts), LastUnit(None, ts), ClassifyAll(Split(lines[k])))
    ensures ParseLine(ParseFile(lines[..k]).carry, lines[k]).Err?
  {
    var before := ParseFile(lines[..k]);
    ParseFileCarry(lines[..k]);
    ParseLineFails(before.carry, lines[k]);
  }

  /**
   * The converse: if the lines before `k` parse and line `k` has no tokens, or has a
   * keyword with no quantity or unit in force, parsing stops at line `k`.
   */
  lemma ParseFileFails(lines: seq<string>, k: nat)
    requires k < |lines| && ParseFile(lines[..k]).error.None?
    requires var ts := Tokens(lines[..k]);
             Split(lines[k]) == [] || !Bound(LastInt(None, ts), LastUnit(None, ts), ClassifyAll(Split(lines[k])))
    ensures ParseFile(lines).error.Some? && ParseFile(lines).error.value.line == k
    ensures ParseFile(lines).records == ParseFile(lines[..k]).records
  {
    PrefixLineFails(lines, k);
    ParseFileNextFails(lines, k);
    ParseFileStops(lines, k);
  }

  /**
   * A unit keyword met before any integer in the file, or a `"mins"` met before any
   * other unit keyword in the file, stops the parse at its line.
   */
  lemma UnboundKeywordFails(lines: seq<string>, k: nat, j: nat)
    requires k < |lines| && ParseFile(lines[..k]).error.None?
    requires j < |Split(lines[k])| && IsUnitKeyword(Split(lines[k])[j])
    requires var seen := Words(lines[..k]) + Split(lines[k])[..j + 1];
             (forall i :: 0 <= i < |seen| ==> ParseInt(seen[i]).None?) ||
             (forall i :: 0 <= i < |seen| ==> UnitSeconds(seen[i]).None?)
    ensures ParseFile(lines).error.Some? && ParseFile(lines).error.value.line == k
    ensures ParseFile(lines).records == ParseFile(lines[..k]).records
  {
    var cols := Split(lines[k]);
    var words := Words(lines[..k]);
    var before := Tokens(lines[..k]);
    var ts := ClassifyAll(cols);
    TokensWords(lines[..k]);
    UnboundAt(words, cols, j);
    ClassifyAllIndex(cols);
    BoundEvery(LastInt(None, before), LastUnit(None, before), ts);
    ParseFileFails(lines, k);
  }

  /** The heart of `UnboundKeywordFails`, over the words seen up to keyword `j`. */
  lemma UnboundAt(words: seq<string>, cols: seq<string>, j: nat)
    requires j < |cols|
    requires var seen := words + cols[..j + 1];
             (forall i :: 0 <= i < |seen| ==> ParseInt(seen[i]).None?) ||
             (forall i :: 0 <= i < |seen| ==> UnitSeconds(seen[i]).None?)
    ensures var before, ts := ClassifyAll(words), ClassifyAll(cols);
            LastInt(LastInt(None, before), ts[..j + 1]).None? ||
            LastUnit(LastUnit(None, before), ts[..j + 1]).None?
  {
    var seen := words + cols[..j + 1];
    var before, ts := ClassifyAll(words), ClassifyAll(cols);
    ClassifyAllIndex(seen);
    ClassifyAllAppend(words, cols[..j + 1]);
    ClassifyAllAppend(cols[..j + 1], cols[j + 1..]);
    assert cols[..j + 1] + cols[j + 1..] == cols;
    assert ts[..j + 1] == ClassifyAll(cols[..j + 1]);
    LastNone(ClassifyAll(seen));
    LastAppend(None, None, before, ts[..j + 1]);
  }

  // ---------------------------------------------------------------------------------
  // Steps of the loops, as the imperative parser in ecs.dfy takes them.

  /** The token loop over the first `j + 1` words: the loop over the first `j`, then one step. */
  lemma ScanTokensNext(st: Scan, cols: seq<string>, j: nat, s: Scan)
    requires j < |cols| && ScanTokens(st, ClassifyAll(cols[..j])) == Ok(s)
    ensures ScanTokens(st, ClassifyAll(cols[..j + 1])) == StepToken(s, Classify(cols[j]))
  {
    var ts := ClassifyAll(cols[..j + 1]);
    assert cols[..j + 1][..j] == cols[..j];
    assert ts[..j] == ClassifyAll(cols[..j]);
  }

  /** Once the token loop has raised, later tokens change nothing. */
  lemma {:induction false} ScanTokensSticky(st: Scan, ts: seq<Token>, m: nat)
    requires m <= |ts| && ScanTokens(st, ts[..m]).Err?
    ensures ScanTokens(st, ts) == ScanTokens(st, ts[..m])
    decreases |ts| - m
  {
    if m < |ts| {
      var init := ts[..|ts| - 1];
      assert init[..m] == ts[..m];
      ScanTokensSticky(st, init, m);
    } else {
      assert ts[..m] == ts;
    }
  }

  /** A row whose token loop raises at word `j` raises the same exception. */
  lemma RowRaises(st: Scan, cols: seq<string>, j: nat)
    requires j < |cols| && ScanTokens(st, ClassifyAll(cols[..j + 1])).Err?
    ensures ScanTokens(st, ClassifyAll(cols)) == ScanTokens(st, ClassifyAll(cols[..j + 1]))
  {
    ClassifyAllAppend(cols[..j + 1], cols[j + 1..]);
    assert cols[..j + 1] + cols[j + 1..] == cols;
    assert ClassifyAll(cols)[..j + 1] == ClassifyAll(cols[..j + 1]);
    ScanTokensSticky(st, ClassifyAll(cols), j + 1);
  }

  /** A line that raises after a prefix that parsed records that exception. */
  lemma ParseFileRaisesAt(lines: seq<string>, k: nat, f: Fault)
    requires k < |lines| && ParseFile(lines[..k]).error.None?
    requires ParseLine(ParseFile(lines[..k]).carry, lines[k]) == Err(f)
    ensures ParseFile(lines[..k + 1]) ==
              FileState(ParseFile(lines[..k]).records, ParseFile(lines[..k]).carry, Some(ParseError(k, f)))
  {
    ParseFileNext(lines, k);
  }

  /** A line whose words all scan appends its class and hands its quantity and unit on. */
  lemma ParseFileLineOk(lines: seq<string>, k: nat, st: Scan)
    requires k < |lines| && ParseFile(lines[..k]).error.None? && Split(lines[k]) != []
    requires var c := ParseFile(lines[..k]).carry;
             ScanTokens(Scan(c.colNumber, c.seconds, 0), ClassifyAll(Split(lines[k]))) == Ok(st)
    ensures ParseFile(lines[..k + 1]) ==
              FileState(ParseFile(lines[..k]).records + [RetentionClass(Split(lines[k])[0], st.period)],
                        Carry(st.colNumber, st.seconds), None)
  {
    ParseFileNext(lines, k);
  }

  /** A line that has no words, or whose token loop raises, records its exception. */
  lemma ParseFileLineFails(lines: seq<string>, k: nat, f: Fault)
    requires k < |lines| && ParseFile(lines[..k]).error.None?
    requires var c := ParseFile(lines[..k]).carry;
             var r := ScanTokens(Scan(c.colNumber, c.seconds, 0), ClassifyAll(Split(lines[k])));
             if r.Err? then r.error == f else Split(lines[k]) == [] && f == NoTokens
    ensures ParseFile(lines[..k + 1]) ==
              FileState(ParseFile(lines[..k]).records, ParseFile(lines[..k]).carry, Some(ParseError(k, f)))
  {
    ParseFileRaisesAt(lines, k, f);
  }

  // ---------------------------------------------------------------------------------
  // Worked examples.

  /** The tokens of the worked example. */
  lemma GoldTokens()
    ensures Split("gold 2 years 3 month") == ["gold", "2", "years", "3", "month"]
  {
    var cols := ["gold", "2", "years", "3", "month"];
    assert JoinSpaced(cols) == "gold 2 years 3 month";
    SplitJoin(cols);
  }

  /** A one-digit word is a quantity and not a keyword. */
  lemma ClassifyDigit(c: char)
    requires IsDigit(c)
    ensures Classify([c]) == Token(Some(DigitValue(c)), false, None)
  {
    assert [c][..0] == [] && [c][0] == c;
    assert AllDigits([c]) && DigitsValue([c]) == DigitValue(c);
    assert !IsUnitKeyword([c]);
    assert UnitSeconds([c]) == None;
  }

  /** A word that starts with neither a digit nor a sign is never a quantity. */
  lemma ClassifyWord(w: string)
    requires |w| > 0 && !IsDigit(w[0]) && w[0] != '-' && w[0] != '+'
    ensures Classify(w) == Token(None, IsUnitKeyword(w), UnitSeconds(w))
  {
    assert !AllDigits(w);
  }

  /** How each word of the worked example classifies. */
  lemma GoldWords()
    ensures Classify("gold") == Token(None, false, None)
    ensures Classify("2") == Token(Some(2), false, None)
    ensures Classify("years") == Token(None, true, Some(31536000))
    ensures Classify("3") == Token(Some(3), false, None)
    ensures Classify("month") == Token(None, true, Some(2592000))
  {
    LongUnits();
    ClassifyWord("gold");
    ClassifyDigit('2');
    ClassifyWord("years");
    ClassifyDigit('3');
    ClassifyWord("month");
  }

  /** The worked example's words, classified. */
  lemma GoldClassify()
    ensures ClassifyAll(["gold", "2", "years", "3", "month"]) ==
              [Token(None, false, None), Token(Some(2), false, None), Token(None, true, Some(31536000)),
               Token(Some(3), false, None), Token(None, true, Some(2592000))]
  {
    var cols := ["gold", "2", "years", "3", "month"];
    GoldWords();
    assert cols[..1][..0] == [] && cols[..2][..1] == cols[..1] && cols[..3][..2] == cols[..2];
    assert cols[..4][..3] == cols[..3] && cols[..5][..4] == cols[..4] && cols[..5] == cols;
    assert ClassifyAll(cols[..2]) == [Token(None, false, None), Token(Some(2), false, None)];
    assert ClassifyAll(cols[..4]) == ClassifyAll(cols[..2]) + [Token(None, true, Some(31536000)), Token(Some(3), false, None)];
  }

  /** The token loop of the worked example, one token at a time. */
  lemma GoldScan()
    ensures ScanTokens(Scan(None, None, 0), ClassifyAll(["gold", "2", "years", "3", "month"])) ==
              Ok(Scan(Some(3), Some(2592000), 70848000))
  {
    GoldClassify();
    var ts := [Token(None, false, None), Token(Some(2), false, None), Token(None, true, Some(31536000)),
               Token(Some(3), false, None), Token(None, true, Some(2592000))];
    var st := Scan(None, None, 0);
    assert ts[..1][..0] == [] && ts[..2][..1] == ts[..1];
    assert ts[..3][..2] == ts[..2] && ts[..4][..3] == ts[..3] && ts[..5][..4] == ts[..4] && ts[..5] == ts;
    assert ScanTokens(st, ts[..1]) == Ok(st);
    assert ScanTokens(st, ts[..2]) == Ok(Scan(Some(2), None, 0));
    assert ScanTokens(st, ts[..3]) == Ok(Scan(Some(2), Some(31536000), 63072000));
    assert ScanTokens(st, ts[..4]) == Ok(Scan(Some(3), Some(31536000), 63072000));
  }

  /** The worked example of a line: 2 years and 3 months. */
  lemma GoldExample()
    ensures ParseFile(["gold 2 years 3 month"]) ==
              FileState([RetentionClass("gold", 70848000)], Carry(Some(3), Some(2592000)), None)
  {
    GoldTokens();
    GoldScan();
    assert ["gold 2 years 3 month"][..0] == [];
  }
}
