# DNS tester: ranking and probe parsing

DNS_Tester measures a list of DNS servers. For each server it:

- pings the server and reads the average and standard deviation of the round-trip time from ping's summary line;
- asks nslookup to resolve a list of sites through the server and records whether every site resolved.

It then ranks the servers with `find_idx`. This is a single-pass scan that returns every index tied for "best" under a three-way comparator. The comparators rank by fastest average, by most stable latency and by completeness.

This Dafny project models that core of `src/dns_tester.py`:

- `Ranking` (ranking.dfy) models the following:
  - `find_idx` as a method with its loop. The method is proved against the prefix function `ScanPrefix`. For any comparator that is a total preorder, it is also proved against an independent reference definition, `MaximalIndices`: the ascending indices of the elements no element beats.
  - The five comparators, each proved to be a total preorder.
  - `mavg_all_none` and `mstddev_all_none`.
- `Probes` (probes.dfy) models `ping_eval` and `nslookup_eval` as functions of the probe's standard output. Python's `IndexError` and the two exceptions of the program are result variants.
- `Evaluator` (evaluator.dfy) models `evaluate_dns`. It takes the ping output and, for each host name, the nslookup output as inputs. Its site loop is a method with loop invariants.
- `InputFilter` (input_filter.dfy) models the driver's filter over the lines of the server and site files. The filter strips each line and drops blank lines and `#` comments. It is modelled as a method with its loop, a reference function and lemmas.
- `Text` (text.dfy) models the Python string operations the parsers rely on:
  - `str.split(sep)`;
  - `str.split()`;
  - `str.strip()`, with Python's whitespace set;
  - `str.startswith`;
  - `str(int)`.

  `split(sep)` and `split()` have round-trip lemmas with their joins, `strip()` is idempotent, `startswith` is characterised as a prefix concatenation, and the digits of `str(int)` read back as the number.
- `Scenarios` (scenarios.dfy) holds worked examples. They include `find_idx` with `mfind_min` and with `mfind_none` on both lists of the commented experiment at the end of the source (src/dns_tester.py:220-226).

Three behaviours of the code are easy to misread, and the model keeps them:

- `find_idx` on an empty list returns `None`, not an empty list (src/dns_tester.py:77-78).
- `ping_eval` takes the second-to-last whitespace-separated word of the summary line (`split()[-2]`), not the last one (src/dns_tester.py:28).
- `evaluate_dns` substitutes the default site only when the site list is absent. An empty list stays empty, so every site (of none) is found (src/dns_tester.py:65-66).

## Model

| member | source | states |
|---|---|---|
| Ranking.FindIdx | src/dns_tester.py:76-89 | `None` exactly for an empty list. Otherwise it returns a non-empty, strictly increasing list of in-range indices equal to `ScanPrefix` of the whole list. For a total preorder it equals `MaximalIndices`, the indices no element beats. |
| Ranking.ScanPrefix | src/dns_tester.py:79-89 | The tie list after scanning a prefix is never empty, is strictly increasing and stays within the prefix. |
| Ranking.ScanLeader | src/dns_tester.py:82-88 | For any comparator, every index after the current best loses to it or ties with it. An index is in the list exactly when it ties. |
| Ranking.ScanSignOnly | src/dns_tester.py:82-88 | Two comparators with the same sign on every pair give the same scan: only the sign of the comparison matters. |
| Ranking.ScanLeaderDominates | src/dns_tester.py:82-86 | Under a total preorder, nothing scanned beats the current best. Everything before the best loses to it. |
| Ranking.ScanIsMaximal | src/dns_tester.py:79-89 | Under a total preorder, an index is returned exactly when no element of the list beats its element. |
| Ranking.ScanIsMaximalIndices | src/dns_tester.py:79-89 | Under a total preorder, the scan equals the reference list of maximal indices. |
| Ranking.ScanTiesPairwise | src/dns_tester.py:79-89 | Under a total preorder, every returned index ties with every other returned index. |
| Ranking.MaximalBelow | src/dns_tester.py:76-89 | Reference definition: strictly increasing, and it holds exactly the indices below the bound whose element nothing beats. |
| Ranking.IncreasingUnique | src/dns_tester.py:79-89 | Two strictly increasing index lists with the same members are equal. This pins the order of `find_idx`'s result. |
| Ranking.NoneCmp | src/dns_tester.py:92-99 | Positive exactly when the candidate is absent and the other is present. Negative exactly when the candidate is present and the other is absent. Any two present values tie. |
| Ranking.MinCmp | src/dns_tester.py:102-109 | Positive exactly when the candidate is present and the other is absent or larger. Zero exactly when both are absent or both hold the same value. |
| Ranking.FastestAvgCmp | src/dns_tester.py:112-121 | `mfind_min` on the average latency: a present, smaller average wins, and absent averages tie. |
| Ranking.MostStableCmp | src/dns_tester.py:124-133 | `mfind_min` on the standard deviation: a present, smaller deviation wins, and absent deviations tie. |
| Ranking.AllFoundCmp | src/dns_tester.py:136-153 | Positive exactly when the candidate found every site and the other did not. Zero exactly when the flags are equal. |
| Ranking.NoneCmpIsTotalPreorder | src/dns_tester.py:92-99 | `mfind_none` is antisymmetric in sign and transitive. |
| Ranking.MinCmpIsTotalPreorder | src/dns_tester.py:102-109 | `mfind_min` is antisymmetric in sign and transitive. |
| Ranking.FastestAvgCmpIsTotalPreorder | src/dns_tester.py:112-121 | `mfind_fastest_avg` is antisymmetric in sign and transitive. |
| Ranking.MostStableCmpIsTotalPreorder | src/dns_tester.py:124-133 | `mfind_most_stable` is antisymmetric in sign and transitive. |
| Ranking.AllFoundCmpIsTotalPreorder | src/dns_tester.py:136-153 | `mfind_all_found` is antisymmetric in sign and transitive. |
| Ranking.AvgAllNone | src/dns_tester.py:156-160 | True exactly when no server has an average latency. This includes the empty list. |
| Ranking.StddevAllNone | src/dns_tester.py:163-167 | True exactly when no server has a standard deviation. This includes the empty list. |
| Probes.PingEval | src/dns_tester.py:24-34 | Empty output, and only empty output, is the no-output format error. `ping_eval` never reports a `ValueError`. A statistics result, "not supported" or the no-round-trip format error all need at least one line break. The statistics are at least one field, none holding `/` or whitespace. Its full behaviour is given by `PingEvalByLine`, `PingEvalShortOutput` and `PingEvalReadsSummary`. |
| Probes.PingEvalByLine | src/dns_tester.py:24-32 | For output of at least two lines, the second-to-last line alone decides the result. A `round-trip` line with at least two words gives its second-to-last word split on `/`. A shorter `round-trip` line is an `IndexError`. A line starting with the repeat count means ping is not supported. Anything else is a format error. |
| Probes.PingEvalShortOutput | src/dns_tester.py:24-34 | Empty output is a format error. A single line without a line break fails on `lines[-2]`. |
| Probes.CountIsNotRoundTrip | src/dns_tester.py:27-30 | A line that starts with the decimal repeat count never starts with `round-trip`, so the two signals never overlap. |
| Probes.PingEvalReadsSummary | src/dns_tester.py:25-28 | Round trip: output whose second-to-last line is a BSD ping summary of some statistics fields parses back to exactly those fields. |
| Probes.SummaryLineWords | src/dns_tester.py:27-28 | The summary line is one line, starts with `round-trip`, and its second-to-last of five words is the slash-joined fields. |
| Probes.NslookupEval | src/dns_tester.py:41-49 | Empty output, and only empty output, is the no-output format error. The only other failure is an `IndexError`. A verdict needs a line break in the output. Its full behaviour is given by `NslookupEvalByLine` and `NslookupEvalShortOutput`. |
| Probes.NslookupEvalByLine | src/dns_tester.py:41-47 | For output of at least three lines, the result is found exactly when the third-to-last line starts with `Address:`. |
| Probes.NslookupEvalShortOutput | src/dns_tester.py:41-49 | Empty output is a format error. One or two lines fail on `lines[-3]`. |
| Evaluator.EvaluateDns | src/dns_tester.py:52-73 | Ping failures other than "not supported" are passed on. Statistics that are not four fields are a `ValueError`. Otherwise, when every lookup parses, the result is (field 1, field 3, all sites found). The first two are absent when ping is not supported. When any lookup fails, the result is a failure, and it is the failure of the first lookup that fails. |
| Evaluator.ResolveAll | src/dns_tester.py:67-71 | The site loop: when every lookup parses, found is true exactly when every site resolved (true for no sites). When any lookup fails, the result is a failure: the first lookup failure. An `Ok` result means every lookup parsed. |
| Evaluator.SiteList | src/dns_tester.py:65-66 | An absent site list becomes `['google.com']`. A given list, even an empty one, is used as is. |
| InputFilter.ReadEntries | src/dns_tester.py:185-192 | The driver's loop yields exactly `Entries` of the lines. |
| InputFilter.Entries | src/dns_tester.py:185-192 | Every kept line is stripped, non-empty and not a comment. |
| InputFilter.EntriesMembers | src/dns_tester.py:185-192 | A string is kept exactly when it is non-empty, not a comment, and some input line strips to it. |
| InputFilter.EntriesIdempotent | src/dns_tester.py:185-192 | Filtering the kept lines again changes nothing. |
| InputFilter.EntriesOfEntries | src/dns_tester.py:185-192 | A list of stripped, non-blank, non-comment lines passes the filter unchanged. |
| Text.Split | src/dns_tester.py:25 | `str.split(sep)` gives at least one piece, and no piece contains the separator. |
| Text.JoinSplit | src/dns_tester.py:25 | Joining the pieces of a split with the separator gives back the string. |
| Text.SplitJoin | src/dns_tester.py:25 | Splitting separator-free pieces joined by the separator gives back the pieces. |
| Text.JoinNonEmpty | src/dns_tester.py:25-26 | Two or more pieces joined give a non-empty string containing the separator. |
| Text.StartsWithConcat | src/dns_tester.py:27-29 | `startswith(prefix)` holds exactly when the string is the prefix followed by the rest of the string. |
| Text.SplitNoSpace | src/dns_tester.py:28 | Splitting a whitespace-free word on `/` gives whitespace-free fields. |
| Text.Words | src/dns_tester.py:28 | `str.split()` gives non-empty words without whitespace. A string that starts with a non-space character gives a first word starting with that character. |
| Text.WordsCover | src/dns_tester.py:28 | The words of `split()`, concatenated in order, are the input with every whitespace character removed. |
| Text.WordsUnwords | src/dns_tester.py:28 | Non-empty, space-free words joined by single spaces split back into the same words. |
| Text.UnwordsOneLine | src/dns_tester.py:28 | Space-free words joined by spaces contain no line break. |
| Text.JoinNoSpace | src/dns_tester.py:28 | Space-free pieces joined by a non-space separator contain no space. |
| Text.Strip | src/dns_tester.py:186 | `str.strip()` leaves neither leading nor trailing whitespace. |
| Text.StripSlice | src/dns_tester.py:186 | The stripped string is a slice of the input, with only whitespace cut on either side. It is empty exactly when the input is all whitespace. |
| Text.StripIdempotent | src/dns_tester.py:186 | Stripping twice is stripping once. |
| Text.DecimalString | src/dns_tester.py:29 | `str(repeat)` is non-empty and starts with a digit or `-`. |
| Text.NatDigitsValue | src/dns_tester.py:29 | The decimal digits of a natural number read back as that number. |

## Left out

- The process runs (`sp.run` of ping and nslookup), UTF-8 decoding and all printing, including the `delim` banner. The probe outputs are inputs of the model instead.
- Timeouts, concurrency and the order in which outside processes run: the source has none of its own.
- `float(...)` and floating-point subtraction in `mfind_fastest_avg` and `mfind_most_stable`: latencies are integers in the ranking. `Ranking.ScanSignOnly` shows that only the sign of a comparison matters to `find_idx`.
- Ranking.FastestAvgCmp: does not model the conversion of the raw ping text to a number, so a `ValueError` from `float` on malformed statistics is not captured.
- Ranking.MostStableCmp: does not model the conversion of the raw ping text to a number, for the same reason.
- Ranking.AllFoundCmp: does not model the `None` branches of `mfind_all_found` (src/dns_tester.py:139-144), because the completeness flag is a boolean and those branches cannot be reached.
- Evaluator.EvaluateDns: the nslookup output is a function of the host name, so a site named twice gets the same output both times, while the source runs nslookup again for each occurrence. No stated property depends on the two runs agreeing.
- The message text of `FormatErrorException` and `PingNotSupportedException`: only the failing parse step is kept.
- argparse, opening the two files and the driver's loop that evaluates every server, ranks the results and prints the names (src/dns_tester.py:171-184 and 194-217): command-line and output glue around the modelled functions.
