# Validation-loss extraction from a training log

`plot_loss.py` reads a training log and plots its validation loss. This
project models its core: `parse_log_file`, which runs the regular expression
`step:(\d+)/(\d+)\s+val_loss:([\d.]+)` over every line of the log and
collects, for each line where it is found, the step (`int()` of the first
group) and the loss (`float()` of the third group) into two lists; and the
guard in `main` that stops before the summary when no step was found, then
reports the count and the least and greatest step and loss.

The modules follow the program's structure:

- `Chars` holds the ASCII character classes `\d`, `\s` and `[\d.]`.
- `Numbers` models `int()` on a run of digits and `float()` on a run of digits
  and dots. A loss is an exact `Decimal` (mantissa and scale), and `Value`
  gives the real number it denotes.
- `LogPattern` models `pattern.search(line)`. `Occurs` describes
  declaratively what it means for the pattern to be found at a position.
  `MatchLine` is the greedy, leftmost search, and it is proved to return the
  leftmost occurrence with an unextendable loss token.
- `LogExtractor` specifies `parse_log_file` over the lines of the log with
  `Extract`, and proves the imperative loop `ParseLogFile` equal to it.
- `Summary` models what `main` reports after parsing.

The log is taken as a sequence of lines. The result is `Success` of the two
lists, or `Failure` carrying the loss token that `float()` rejects. Such a
token is one with no digit or with more than one dot, such as `val_loss:.`
or `val_loss:1.2.3`. In the source the `ValueError` escapes
`parse_log_file`, so there is no partial result.

The `\s+` between the total and `val_loss:` accepts any non-empty run of
whitespace, as the regular expression in the code does. This holds even
though a single space is all the log format describes.

## Model

| member | source | states |
|---|---|---|
| `Numbers.DigitsValue` | plot_loss.py:29-30 | `int()` of a digit run is a natural number below ten to the power of its length; leading zeros are allowed |
| `Numbers.DigitsValueConcat` | plot_loss.py:29-30 | the value of digits `a + b` is the value of `a` shifted left by as many digits as `b` has plus the value of `b` |
| `Numbers.ParseDecimal` | plot_loss.py:31 | `float()` on a digits-and-dots token succeeds if and only if the token has at least one digit and at most one dot |
| `Numbers.ParseDecimalFraction` | plot_loss.py:31 | a token `ip.fp` parses to the decimal of the digits `ip + fp` with one decimal place per digit of `fp`, whose value is `ip` plus `fp` divided by ten to the power of that count |
| `Numbers.FormatDecimalRoundTrip` | plot_loss.py:31 | parsing the canonical token of any decimal gives back that same decimal |
| `LogPattern.OccursSpellsText` | plot_loss.py:23 | an occurrence is found at its start exactly when its parts are well formed and the line's slice there equals `step:<step>/<total><ws>val_loss:<loss>` |
| `LogPattern.MatchAtSound` | plot_loss.py:23 | what the greedy match at position `i` finds occurs at `i`, and its loss token ends at the end of the line or before a character that is neither a digit nor a dot |
| `LogPattern.MatchAtComplete` | plot_loss.py:23 | every occurrence at `i` is found by the greedy match at `i`, which agrees on step, total and whitespace and whose loss token extends the occurrence's loss token |
| `LogPattern.OccurrencesAtSameStart` | plot_loss.py:23 | two occurrences at one start have the same step, total and whitespace, and one loss token is a prefix of the other |
| `LogPattern.SearchFrom` | plot_loss.py:27 | searching from `i` returns the greedy match at the first position `>= i` where the pattern occurs, or None when every occurrence starts before `i` |
| `LogPattern.MatchLine` | plot_loss.py:23-28 | `pattern.search(line)` is None exactly when nothing occurs in the line; otherwise it is the leftmost occurrence, with the longest loss token possible at that start, and that token cannot be extended |
| `LogPattern.GreedyLossLongest` | plot_loss.py:23 | of two occurrences that agree up to the loss token, one whose loss token cannot be extended is not shorter than the other |
| `LogPattern.MatchLineIsLeftmost` | plot_loss.py:23-27 | the leftmost occurrence with an unextendable loss token is unique, and it is what the search returns |
| `LogExtractor.LineRecordOf` | plot_loss.py:27-31 | a matching line contributes the value of its step digits and the decimal of its loss token, or the rejected token when `float()` rejects it |
| `LogExtractor.TotalIgnored` | plot_loss.py:29-33 | two lines whose matches agree on step and loss contribute the same record, whatever their totals are |
| `LogExtractor.Collect` | plot_loss.py:26-35 | a successful parse yields two lists of equal length, no longer than the number of lines |
| `LogExtractor.Extract` | plot_loss.py:17-35 | the result of `parse_log_file` on a log's lines has two lists of equal length, at most one entry per line |
| `LogExtractor.CollectFailureSticks` | plot_loss.py:31-35 | once a prefix of the lines has failed, the whole parse fails with the same error |
| `LogExtractor.Kept` | plot_loss.py:28 | the lines that contribute, listed in strictly increasing order, and all of them |
| `LogExtractor.CollectRecords` | plot_loss.py:26-33 | a successful parse has one record per contributing line, in line order, each the contribution of its own line |
| `LogExtractor.ExtractRecords` | plot_loss.py:26-33 | a successful parse holds, in line order, exactly the step and loss of each line where the pattern is found, with no sorting or dropping |
| `LogExtractor.CollectFailure` | plot_loss.py:31 | the parse fails if and only if some line has a rejected loss token, and the error is the first such token |
| `LogExtractor.ExtractFailure` | plot_loss.py:31 | on lines, the parse fails if and only if a line where the pattern is found has a loss token `float()` rejects; the error is the token of the first such line |
| `LogExtractor.CollectEmpty` | plot_loss.py:19-20 | the result is two empty lists if and only if every line contributes nothing |
| `LogExtractor.LineSkipped` | plot_loss.py:27-28 | a line contributes nothing if and only if the pattern occurs nowhere in it |
| `LogExtractor.NoMatchingLines` | plot_loss.py:19-35 | the result is two empty lists (for an empty log too) if and only if the pattern occurs in no line |
| `LogExtractor.ParseLogFile` | plot_loss.py:17-35 | the loop over the lines returns exactly `Extract(lines)` |
| `Summary.MinStep` | plot_loss.py:83 | `min(steps)` is an element of the steps and no greater than any of them |
| `Summary.MaxStep` | plot_loss.py:83 | `max(steps)` is an element of the steps and no smaller than any of them |
| `Summary.MinLossAt` | plot_loss.py:84 | `min(val_losses)` is a loss of least value, the first such in the list |
| `Summary.MaxLossAt` | plot_loss.py:84 | `max(val_losses)` is a loss of greatest value, the first such in the list |
| `Summary.Summarize` | plot_loss.py:77-84 | the summary is withheld exactly when no step was found; otherwise it has the count, and least and greatest step and loss, each taken from the lists and bounding all of them |
| `Summary.SummaryGuard` | plot_loss.py:77-80 | after a successful parse, `main` stops before the minima and maxima exactly when the pattern occurs in no line |
| `Summary.SummaryExample` | plot_loss.py:82-84 | steps 10, 20, 30 with losses 2.5, 2.1, 1.9 are reported as steps 10 to 30 and losses 1.9 to 2.5 |

## Left out

- `plot_loss` (plot_loss.py:38-56) draws with matplotlib. It is graphics output and not modelled.
- `main`'s argument parsing, the `Path.exists` check, its messages and `sys.exit` (plot_loss.py:59-80, 86) are I/O. `Summarize` returns None where `main` exits with status 1.
- Opening the file, decoding it and splitting it into lines are not modelled. The log is given as a sequence of lines. A line's trailing newline cannot extend a match, since it is neither a digit nor a dot.
- The losses are exact decimals, not binary floats. The model does not capture rounding to the nearest double. It also keeps two tokens with the same value (`2.5` and `2.50`) as distinct decimals with equal `Value`.
- The `.4f` formatting of the printed losses is not modelled.
- `\d`, `\s` and `int()` are modelled on ASCII only. Python also accepts other Unicode decimal digits and whitespace, and its `\s` on text also matches the characters 0x1c to 0x1f.
- `int()` raises on numerals longer than Python's digit limit (4300 digits by default). The model reads digit runs of any length.
- `float()`'s other accepted forms (sign, exponent, `inf`, `nan`, surrounding whitespace, underscores) cannot occur in a `[\d.]+` token, so they are not modelled.
- `LogPattern.MatchAt`: its own contract states only the start position. What it finds is stated by `MatchAtSound` and `MatchAtComplete`.
