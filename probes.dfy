/** Reading the output of the two probes: `ping_eval` and `nslookup_eval`
    (src/dns_tester.py:20-49), with the process run left out: each parser
    takes the probe's decoded standard output. */
module Probes {
  import opened Text

  /** Which parse step raised `FormatErrorException`. */
  datatype ParseStep = PingNoOutput | PingNoRoundTrip | LookupNoOutput

  /** The ways a probe or its caller can fail: `PingNotSupportedException`,
      `FormatErrorException`, and the Python errors the code does not catch
      (`IndexError` from `lines[-2]`, `lines[-3]` or `split()[-2]` on too short
      a list, `ValueError` from unpacking a statistics tuple whose length is
      not four). */
  datatype Failure =
    | PingNotSupported
    | FormatError(step: ParseStep)
    | IndexError
    | ValueError

  datatype Result<T> = Ok(value: T) | Fail(failure: Failure)

  const RoundTripMarker: string := "round-trip"
  const AddressMarker: string := "Address:"

  /** All pieces are single lines. */
  predicate OneLine(lines: seq<string>) {
    forall k :: 0 <= k < |lines| ==> '\n' !in lines[k]
  }

  // ---------------------------------------------------------------------------
  // ping_eval
  // ---------------------------------------------------------------------------

  /** `ping_eval`: look at the second-to-last line of ping's output; a
      round-trip summary gives the slash-separated fields of its second-to-last
      word, a line that starts with the repeat count means ping got no reply,
      anything else is a format error. */
  function PingEval(stdout: string, repeat: int): (r: Result<seq<string>>)
    ensures stdout == [] <==> r == Fail(FormatError(PingNoOutput))
    ensures r.Fail? ==> r.failure != ValueError && r.failure != FormatError(LookupNoOutput)
    ensures r.Ok? || r == Fail(PingNotSupported) || r == Fail(FormatError(PingNoRoundTrip)) ==> '\n' in stdout
    ensures r.Ok? ==> r.value != [] && forall k :: 0 <= k < |r.value| ==> '/' !in r.value[k] && NoSpace(r.value[k])
  {
    if stdout == [] then Fail(FormatError(PingNoOutput))
    else
      var lines := Split(stdout, '\n');
      if |lines| < 2 then Fail(IndexError)
      else
        JoinSplit(stdout, '\n');
        JoinNonEmpty(lines, '\n');
        var line := lines[|lines| - 2];
        if StartsWith(line, RoundTripMarker) then
          var words := Words(line);
          if |words| < 2 then Fail(IndexError)
          else
            var stats := words[|words| - 2];
            SplitNoSpace(stats, '/');
            Ok(Split(stats, '/'))
        else if StartsWith(line, DecimalString(repeat)) then Fail(PingNotSupported)
        else Fail(FormatError(PingNoRoundTrip))
  }

  /** Output of no more than one line: empty is a format error, a single
      line without a line break fails on `lines[-2]`. */
  lemma PingEvalShortOutput(stdout: string, repeat: int)
    requires '\n' !in stdout
    ensures stdout == [] ==> PingEval(stdout, repeat) == Fail(FormatError(PingNoOutput))
    ensures stdout != [] ==> PingEval(stdout, repeat) == Fail(IndexError)
  {
    SplitJoin([stdout], '\n');
  }

  /** The repeat count printed in decimal never starts like a round-trip
      summary, so the two signals cannot be confused. */
  lemma CountIsNotRoundTrip(line: string, repeat: int)
    requires StartsWith(line, DecimalString(repeat))
    ensures !StartsWith(line, RoundTripMarker)
  {
    assert line[0] == DecimalString(repeat)[0];
  }

  /** Output given as its lines: the verdict depends on the second-to-last
      line only. */
  lemma {:induction false} PingEvalByLine(lines: seq<string>, repeat: int)
    requires |lines| >= 2 && OneLine(lines)
    ensures var line, r := lines[|lines| - 2], PingEval(Join(lines, '\n'), repeat);
      && (StartsWith(line, RoundTripMarker) && |Words(line)| >= 2 ==>
            r == Ok(Split(Words(line)[|Words(line)| - 2], '/')))
      && (StartsWith(line, RoundTripMarker) && |Words(line)| < 2 ==> r == Fail(IndexError))
      && (StartsWith(line, DecimalString(repeat)) ==> r == Fail(PingNotSupported))
      && (!StartsWith(line, RoundTripMarker) && !StartsWith(line, DecimalString(repeat)) ==>
            r == Fail(FormatError(PingNoRoundTrip)))
  {
    SplitJoin(lines, '\n');
    JoinNonEmpty(lines, '\n');
    if StartsWith(lines[|lines| - 2], DecimalString(repeat)) {
      CountIsNotRoundTrip(lines[|lines| - 2], repeat);
    }
  }

  /** The summary line BSD ping prints: `round-trip min/avg/max/stddev = a/b/c/d ms`. */
  function SummaryLine(fields: seq<string>): string {
    Unwords([RoundTripMarker, "min/avg/max/stddev", "=", Join(fields, '/'), "ms"])
  }

  /** Round trip: a ping report whose second-to-last line is the summary of
      `fields` (the output ends with a line break) parses to `fields`. */
  lemma PingEvalReadsSummary(header: seq<string>, fields: seq<string>, repeat: int)
    requires OneLine(header)
    requires fields != []
    requires forall k :: 0 <= k < |fields| ==> fields[k] != [] && NoSpace(fields[k]) && '/' !in fields[k]
    ensures PingEval(Join(header + [SummaryLine(fields), ""], '\n'), repeat) == Ok(fields)
  {
    var line := SummaryLine(fields);
    SummaryLineWords(fields);
    var lines := header + [line, ""];
    assert lines[|lines| - 2] == line;
    assert OneLine(lines);
    PingEvalByLine(lines, repeat);
    SplitJoin(fields, '/');
  }

  /** The summary line is one line, starts with the round-trip marker and its
      second-to-last word holds the joined fields. */
  lemma SummaryLineWords(fields: seq<string>)
    requires fields != []
    requires forall k :: 0 <= k < |fields| ==> fields[k] != [] && NoSpace(fields[k])
    ensures var line := SummaryLine(fields);
      && '\n' !in line
      && StartsWith(line, RoundTripMarker)
      && |Words(line)| == 5
      && Words(line)[3] == Join(fields, '/')
  {
    var stats := Join(fields, '/');
    JoinNoSpace(fields, '/');
    assert |stats| >= |fields[0]| > 0;
    var words := [RoundTripMarker, "min/avg/max/stddev", "=", stats, "ms"];
    SummaryLabelsAreWords();
    assert forall k :: 0 <= k < |words| ==> words[k] != [] && NoSpace(words[k]);
    WordsUnwords(words);
    UnwordsOneLine(words);
    var line := SummaryLine(fields);
    assert line == RoundTripMarker + ([' '] + Unwords(words[1..]));
  }

  /** The fixed words of the summary line hold no whitespace. */
  lemma SummaryLabelsAreWords()
    ensures NoSpace(RoundTripMarker) && NoSpace("min/avg/max/stddev") && NoSpace("=") && NoSpace("ms")
  {
  }

  // ---------------------------------------------------------------------------
  // nslookup_eval
  // ---------------------------------------------------------------------------

  /** `nslookup_eval`: a site resolved when the third-to-last line of
      nslookup's output starts with `Address:`; empty output is a format
      error. */
  function NslookupEval(stdout: string): (r: Result<bool>)
    ensures stdout == [] <==> r == Fail(FormatError(LookupNoOutput))
    ensures r.Fail? ==> r.failure == FormatError(LookupNoOutput) || r.failure == IndexError
    ensures r.Ok? ==> '\n' in stdout
  {
    if stdout == [] then Fail(FormatError(LookupNoOutput))
    else
      var lines := Split(stdout, '\n');
      if |lines| < 3 then Fail(IndexError)
      else
        JoinSplit(stdout, '\n');
        JoinNonEmpty(lines, '\n');
        Ok(StartsWith(lines[|lines| - 3], AddressMarker))
  }

  /** Output of at least three lines: found exactly when the third-to-last
      line starts with `Address:`. */
  lemma NslookupEvalByLine(lines: seq<string>)
    requires |lines| >= 3 && OneLine(lines)
    ensures NslookupEval(Join(lines, '\n')) == Ok(StartsWith(lines[|lines| - 3], AddressMarker))
  {
    var stdout := Join(lines, '\n');
    SplitJoin(lines, '\n');
    JoinNonEmpty(lines, '\n');
    assert stdout != [] && Split(stdout, '\n') == lines;
  }

  /** Output of fewer than three lines: empty is a format error, otherwise
      `lines[-3]` fails. */
  lemma NslookupEvalShortOutput(lines: seq<string>)
    requires 1 <= |lines| <= 2 && OneLine(lines)
    ensures Join(lines, '\n') == [] ==> NslookupEval(Join(lines, '\n')) == Fail(FormatError(LookupNoOutput))
    ensures Join(lines, '\n') != [] ==> NslookupEval(Join(lines, '\n')) == Fail(IndexError)
  {
    SplitJoin(lines, '\n');
  }
}
