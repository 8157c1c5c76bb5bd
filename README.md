# ECS migration helper: retention-file parser, ANSI stripper and host normalisation

`ecs_mig_tool.py` creates retention classes on a Dell EMC ECS system. It reads a
retention file where each line names a class and gives its retention period in words
(`gold 2 years 3 month`). It turns each line into a `{name, period}` record, with the
period in seconds, and appends the record to the client object's `ret_classes` list.
Before talking to the ECS API, it strips `https://` from the host address. It also
has a helper that removes ANSI control sequences from text.

This project models those three pieces and proves what they do.

- `wrappers.dfy` holds `Option` and `Result`. A Python exception becomes an `Err` or a
  `Some(error)`.
- `text.dfy` models `str.split()` on ASCII whitespace (`Split`). It models `int()` on a
  token as an optional sign followed by ASCII digits (`ParseInt`).
- `ansi.dfy` models `escape_ansi`. The pattern is the control sequence of section 5.4 of
  ECMA-48: an introducer, parameter bytes, intermediate bytes and one final byte. The
  model is a left-to-right scanner. It is proved to match exactly the strings that are
  control sequences, and what it deletes and keeps is proved.
- `hostname.dfy` models the two single-pass `str.replace` calls of the constructor.
- `retention.dfy` is the functional specification of `parse_csv`, the way the code is
  written:
  - the token loop is `ScanTokens`, the line is `ParseLine`, and the file loop is
    `ParseFile`;
  - a reference definition states the quantity, the unit and the period per token
    (`LastInt`, `LastUnit`, `PeriodSum`, `Bound`);
  - lemmas connect the reference definition to the loops.
- `ecs.dfy` has the class `Ecs`:
  - its fields are those of the Python object;
  - its constructor normalises the host;
  - `ParseCsv` runs the nested loops in place on `retClasses`, carrying `col_number` and
    `seconds` across lines, and is proved equal to `ParseFile`;
  - the inner loop over the words of a row is the method `ScanRow`, and its body is the
    method `ScanWord`. Python runs both inline. The locals `col_number`, `seconds` and
    `ret_period` go in as parameters and come back as results;
  - `ParseCsv` returns the exception where Python raises it. The records appended
    before it stay in `retClasses`, as they do in Python.

Behaviour of `parse_csv` kept as the code has it:

- `col_number` and `seconds` are never reset. They carry over between tokens and
  between lines.
- The name token is scanned like every other token. A numeric name sets the quantity.
- `mins` passes the keyword test but assigns no unit-seconds, so it reuses the unit
  in force.
- A line with no tokens raises `IndexError` at `cols[0]`. It is not skipped.
- A keyword read before any quantity raises `UnboundLocalError` on `col_number`. A
  `mins` read before any other unit keyword raises it on `seconds`; every other
  keyword sets `seconds` itself before the sum.
- A signed quantity such as `-2` is accepted, so a period can be negative.
- After an exception, the records of the earlier lines stay in `ret_classes` and
  nothing more is read.

## Model

| member | source | states |
|---|---|---|
| Text.Split | ecs_mig_tool.py:180 | `row.split()` yields only non-empty, whitespace-free tokens |
| Text.SplitJoin | ecs_mig_tool.py:180 | splitting a single-space join of tokens gives those tokens back |
| Text.SplitEmpty | ecs_mig_tool.py:180 | a line has no tokens exactly when it is all whitespace |
| Text.ParseInt | ecs_mig_tool.py:184-187 | an accepted token ends in a digit, and a negative value comes from a leading `-` |
| Text.ParseIntToString | ecs_mig_tool.py:184-187 | `int()` reads back every integer written in decimal, signed ones included |
| Retention.UnitSeconds | ecs_mig_tool.py:190-200 | a keyword assigns unit-seconds exactly when it is not `mins`; they are positive whole minutes |
| Retention.LongUnits | ecs_mig_tool.py:191-194 | `year`/`years` give 31536000 seconds and `month`/`months` give 2592000 |
| Retention.ShortUnits | ecs_mig_tool.py:195-200 | `day`/`days` give 86400 seconds, `hrs` 3600 and `min` 60 |
| Retention.Classify | ecs_mig_tool.py:184-200 | a word passes the keyword test exactly when it is in the list; a keyword is never an integer; only keywords assign units |
| Retention.MinsReusesUnit | ecs_mig_tool.py:190-200 | `mins` is a keyword with no number and no unit, so the quantity and the unit in force stay |
| Retention.ClassifyAll | ecs_mig_tool.py:182 | one token per word |
| Retention.ClassifyAllIndex | ecs_mig_tool.py:182 | token `k` is the classification of word `k` |
| Retention.ClassifyAllAppend | ecs_mig_tool.py:182 | classifying two runs of words is classifying each run |
| Retention.TokensWords | ecs_mig_tool.py:179-182 | the tokens of a file are its words, line after line, classified |
| Retention.StepToken | ecs_mig_tool.py:184-202 | one word fails only at a keyword, with `UnboundLocalError`; a non-keyword leaves period and unit alone; a non-integer leaves the quantity alone |
| Retention.StepTokenSpec | ecs_mig_tool.py:184-202 | proof step of `ScanTokensSnoc`: a word succeeds exactly when it is no keyword or has a quantity and a unit in force, and a keyword then adds quantity × unit |
| Retention.ScanTokens | ecs_mig_tool.py:182-202 | the token loop never fails for lack of tokens |
| Retention.NoKeywordScan | ecs_mig_tool.py:182-202 | a run without keywords never fails and keeps the period and the unit |
| Retention.NoKeywordLine | ecs_mig_tool.py:181-204 | a line without keywords gets period 0 and keeps the unit in force |
| Retention.BoundEvery | ecs_mig_tool.py:190-202 | `Bound` holds exactly when every keyword has a quantity and a unit in force at its position |
| Retention.LastSnoc | ecs_mig_tool.py:184-202 | proof step of `ScanTokensSnoc`: one more token updates the last quantity, last unit and period sum as the loop does |
| Retention.ScanTokensSnoc | ecs_mig_tool.py:182-202 | one more token keeps the loop equal to the reference definition |
| Retention.ScanTokensSpec | ecs_mig_tool.py:181-202 | the token loop succeeds exactly when every keyword is bound, and then leaves the last integer, the last unit and the start plus the per-keyword sum |
| Retention.LastAppend | ecs_mig_tool.py:184-200 | the quantity and unit in force after two runs of tokens continue from those after the first |
| Retention.LastNone | ecs_mig_tool.py:184-200 | with no integer there is no quantity, and with no unit-assigning keyword there is no unit |
| Retention.ParseLine | ecs_mig_tool.py:180-204 | a parsed line is named by its first token, and the line fails with `IndexError` exactly when it has no tokens |
| Retention.ParseFile | ecs_mig_tool.py:179-204 | a file that parses gives one record per line; a failure at line `k` keeps exactly the `k` records before it |
| Retention.ParseFileSticky | ecs_mig_tool.py:179-204 | once a prefix of the file has raised, later lines change nothing |
| Retention.ParseFileCarry | ecs_mig_tool.py:184-202 | the carried quantity and unit are the last integer and the last unit anywhere earlier in the file, names included |
| Retention.ParseFileRecord | ecs_mig_tool.py:180-204 | record `k` is named by the first token of line `k`, and its period sums quantity × unit over that line's keywords, starting from what earlier lines left |
| Retention.ParseFileError | ecs_mig_tool.py:179-204 | when the parse stops at line `k`, the lines before it parsed and were kept, and line `k` has no tokens or an unbound keyword |
| Retention.ParseFileErrorAt | ecs_mig_tool.py:179-204 | the same facts, for a given failing line `k` |
| Retention.ParseLineFails | ecs_mig_tool.py:180-204 | a line with no tokens or an unbound keyword fails |
| Retention.ParseFileNext | ecs_mig_tool.py:179-204 | proof step of `ParseCsv` (through `ParseFileLineOk` and `ParseFileRaisesAt`): one more line after a prefix that parsed appends its record or records its exception |
| Retention.ParseFileNextFails | ecs_mig_tool.py:179-204 | a failing line after a prefix that parsed is where the longer prefix stops |
| Retention.ParseFileStops | ecs_mig_tool.py:179-204 | a failure at line `k` stands for the whole file, with the same records |
| Retention.PrefixLineFails | ecs_mig_tool.py:179-204 | line `k` fails under the quantity and unit left by the earlier lines when it has no tokens or an unbound keyword |
| Retention.ParseFileFails | ecs_mig_tool.py:179-204 | conversely, such a line `k` stops the parse there, keeping the earlier records |
| Retention.UnboundKeywordFails | ecs_mig_tool.py:184-202 | a keyword before any integer in the file, or before any unit-assigning keyword, stops the parse at its line |
| Retention.UnboundAt | ecs_mig_tool.py:184-202 | with no integer, or no unit-assigning keyword, among the words seen so far, the keyword has no quantity or no unit |
| Retention.ScanTokensNext | ecs_mig_tool.py:182-202 | proof step of `ScanRow`: the loop over `j + 1` words is the loop over `j` words and one more step |
| Retention.ScanTokensSticky | ecs_mig_tool.py:182-202 | once the token loop has raised, later tokens change nothing |
| Retention.RowRaises | ecs_mig_tool.py:182-202 | a raise at word `j` is the raise of the whole line |
| Retention.ParseFileRaisesAt | ecs_mig_tool.py:179-204 | a line that raises after a prefix that parsed records its exception at that line |
| Retention.ParseFileLineOk | ecs_mig_tool.py:179-204 | a line whose words all scan appends its record and carries its quantity and unit |
| Retention.ParseFileLineFails | ecs_mig_tool.py:179-204 | a line with no words, or whose loop raises, records that exception and keeps the earlier records |
| Retention.GoldTokens | ecs_mig_tool.py:180 | `gold 2 years 3 month` splits into its five words |
| Retention.ClassifyDigit | ecs_mig_tool.py:184-190 | a one-digit word is an integer and not a keyword |
| Retention.ClassifyWord | ecs_mig_tool.py:184-190 | a word starting with neither a digit nor a sign is never an integer |
| Retention.GoldWords | ecs_mig_tool.py:184-200 | how each word of the example classifies |
| Retention.GoldClassify | ecs_mig_tool.py:182-200 | the example's word list, classified |
| Retention.GoldScan | ecs_mig_tool.py:181-202 | the example's loop ends with quantity 3, the month unit and period 70848000 |
| Retention.GoldExample | ecs_mig_tool.py:179-204 | `gold 2 years 3 month` gives the class `gold` with period 70848000 seconds |
| EcsClient.Ecs.constructor | ecs_mig_tool.py:114-121 | the settings are stored, the host has its scheme removed, and the class list starts empty and valid |
| EcsClient.Ecs.ParseCsv | ecs_mig_tool.py:177-204 | appends exactly `ParseFile(lines)`'s records to the old list, returns its exception, and keeps the class invariant `Valid()` (every stored name a token), which the constructor establishes |
| EcsClient.ScanRow | ecs_mig_tool.py:181-202 | the inner loop over one row's words computes `ScanTokens` from the carried quantity and unit |
| EcsClient.ScanWord | ecs_mig_tool.py:184-202 | the loop body on one word (`int()`, the keyword test, the unit chain, the sum, the unbound reads) computes `StepToken` of the word's classification |
| EcsClient.AllNamedAppend | ecs_mig_tool.py:204 | appending a record named by a token keeps every name a token |
| Ansi.CsiLength | ecs_mig_tool.py:54 | a match is empty or at least two characters, within the input |
| Ansi.ClassesDisjoint | ecs_mig_tool.py:54 | parameter, intermediate and final bytes are disjoint classes |
| Ansi.CsiLengthSound | ecs_mig_tool.py:54 | what the scanner matches is a control sequence |
| Ansi.CsiLengthComplete | ecs_mig_tool.py:54 | a prefix that is a control sequence is exactly what the scanner matches |
| Ansi.RunExact | ecs_mig_tool.py:54 | a run of one byte class stopped by a byte outside it is matched in full, as the greedy `*` does |
| Ansi.CsiMatch | ecs_mig_tool.py:54 | a prefix is a control sequence if and only if the scanner matches that length |
| Ansi.EscapeAnsi | ecs_mig_tool.py:53-55 | the output is never longer than the input |
| Ansi.DeletesCsi | ecs_mig_tool.py:53-55 | a control sequence at the scan position is deleted |
| Ansi.KeepsUnmatched | ecs_mig_tool.py:53-55 | a character where no control sequence starts is kept |
| Ansi.KeepsPlain | ecs_mig_tool.py:53-55 | a character other than ESC and 0x9B is kept |
| Ansi.PlainPrefix | ecs_mig_tool.py:53-55 | text without ESC and 0x9B passes through in front of whatever follows |
| Ansi.NoIntroducerUnchanged | ecs_mig_tool.py:53-55 | text without ESC and 0x9B is returned unchanged |
| Ansi.NoFinalUnchanged | ecs_mig_tool.py:53-55 | text without any final byte is returned unchanged, a dangling 0x9B introducer included (ESC `[` holds the final byte `[`) |
| Ansi.DanglingEscKept | ecs_mig_tool.py:53-55 | ESC `[` followed by text without any final byte is returned unchanged |
| Ansi.ColourSequences | ecs_mig_tool.py:54 | the bold-red and reset sequences are control sequences |
| Ansi.ColouredText | ecs_mig_tool.py:53-55 | plain text wrapped in a colour and a reset sequence comes out bare |
| Ansi.StrayEscape | ecs_mig_tool.py:54 | an ESC followed by another ESC starts no control sequence and is kept |
| Ansi.SinglePass | ecs_mig_tool.py:53-55 | deleting can bring a new sequence together, which one call leaves in place |
| Hostname.RemoveAll | ecs_mig_tool.py:119 | a removal never lengthens the text |
| Hostname.NormalizeHost | ecs_mig_tool.py:119 | the normalised host is never longer than the address |
| Hostname.KeepsOne | ecs_mig_tool.py:119 | proof step of the `RemoveAll` inductions (`ChangedOnlyIfOccurs`, `RemoveAllShrinksAt`): where the pattern does not start, one character is kept |
| Hostname.ChangedOnlyIfOccurs | ecs_mig_tool.py:119 | a changed text contained the pattern |
| Hostname.RemoveAllShrinks | ecs_mig_tool.py:119 | a text that contains the pattern gets shorter |
| Hostname.RemoveAllUnchanged | ecs_mig_tool.py:119 | a removal leaves the text unchanged exactly when the pattern does not occur |
| Hostname.NormalizeHostUnchanged | ecs_mig_tool.py:119 | a host is left as it is exactly when it contains neither `https://` nor `HTTPS://` |
| Hostname.KeepsPrefixWithoutLead | ecs_mig_tool.py:119 | a prefix free of the pattern's first character passes through |
| Hostname.StripsScheme | ecs_mig_tool.py:119 | a leading scheme in either spelling is removed |
| Hostname.DropsOne | ecs_mig_tool.py:119 | proof step of `SplitSchemeFirstPass`: an occurrence at the scan position is deleted |
| Hostname.SplitSchemeFirstPass | ecs_mig_tool.py:119 | deleting an inner `https://` joins the outer one's halves into a new one |
| Hostname.SinglePass | ecs_mig_tool.py:119 | such a joined scheme survives normalisation, since each `replace` is one pass |

## Left out

- `send_post_retentionclass` (ecs_mig_tool.py:123-175) is not modelled. It does the token login, the POST requests, the status printing and `exit(1)`, which are all network I/O and process control.
- `get_argument`, `main` and the module-level globals (ecs_mig_tool.py:58-104, 206-239) are not modelled. They are argument parsing, logging set-up and timestamps. The constructor takes the values of those globals as parameters.
- The `urllib3` warning suppression and all logging and printing are not modelled.
- Opening and reading the file (ecs_mig_tool.py:178) is not modelled. `ParseCsv` takes the file's lines as a parameter. A file that cannot be opened raises in the code, and that case is not modelled.
- Text.ParseInt: accepts only an optional sign followed by ASCII digits. Python's `int()` also accepts underscores between digits and non-ASCII Unicode digits. Since Python 3.11, `int()` also raises `ValueError` on a decimal string of more than 4300 digits (`sys.int_info.default_max_str_digits`); the bare `except` swallows it, so such a word is no quantity in the code, while `ParseInt` accepts it.
- Text.Split: splits only on ASCII whitespace and the four separator controls 0x1C-0x1F. Python's `str.split()` also splits on Unicode whitespace such as 0x85 and 0xA0.
- Ansi.EscapeAnsi: applies `str(line)` only to strings. Other argument types are not modelled.
