/** Worked runs of the model on small inputs, including the lists of the
    commented experiment at the end of src/dns_tester.py (lines 220-226). */
module Scenarios {
  import opened Wrappers
  import opened Text
  import opened Probes
  import opened Ranking
  import opened Evaluator

  /** The shuffled list of the commented experiment (line 223). */
  const Shuffled: seq<Option<int>> := [Some(4), None, Some(2), None, Some(1), Some(3)]

  /** `mfind_min` on the shuffled list picks the smallest present value. */
  method ShuffledMinScenario() {
    var v := Shuffled;
    var r := FindIdx(v, MinCmp);
    assert ScanPrefix(v, MinCmp, 2) == [0] by { assert MinCmp(v[1], v[0]) < 0; }
    assert ScanPrefix(v, MinCmp, 3) == [2] by { assert MinCmp(v[2], v[0]) > 0; }
    assert ScanPrefix(v, MinCmp, 4) == [2] by { assert MinCmp(v[3], v[2]) < 0; }
    assert ScanPrefix(v, MinCmp, 5) == [4] by { assert MinCmp(v[4], v[2]) > 0; }
    assert ScanPrefix(v, MinCmp, 6) == [4] by { assert MinCmp(v[5], v[4]) < 0; }
    assert r == Some([4]);
  }

  /** `mfind_none` on the shuffled list picks every absent value. */
  method ShuffledNoneScenario() {
    var v := Shuffled;
    var r := FindIdx(v, NoneCmp<int>);
    assert ScanPrefix(v, NoneCmp<int>, 2) == [1] by { assert NoneCmp(v[1], v[0]) > 0; }
    assert ScanPrefix(v, NoneCmp<int>, 3) == [1] by { assert NoneCmp(v[2], v[1]) < 0; }
    assert ScanPrefix(v, NoneCmp<int>, 4) == [1, 3] by { assert NoneCmp(v[3], v[1]) == 0; }
    assert ScanPrefix(v, NoneCmp<int>, 5) == [1, 3] by { assert NoneCmp(v[4], v[1]) < 0; }
    assert ScanPrefix(v, NoneCmp<int>, 6) == [1, 3] by { assert NoneCmp(v[5], v[1]) < 0; }
    assert r == Some([1, 3]);
  }

  /** The list of the commented experiment before shuffling (line 220). */
  const Unshuffled: seq<Option<int>> := [Some(1), Some(2), Some(3), Some(4), None, None]

  /** `mfind_min` on the unshuffled list keeps the first, smallest value. */
  method UnshuffledMinScenario() {
    var v := Unshuffled;
    var r := FindIdx(v, MinCmp);
    assert ScanPrefix(v, MinCmp, 2) == [0] by { assert MinCmp(v[1], v[0]) < 0; }
    assert ScanPrefix(v, MinCmp, 3) == [0] by { assert MinCmp(v[2], v[0]) < 0; }
    assert ScanPrefix(v, MinCmp, 4) == [0] by { assert MinCmp(v[3], v[0]) < 0; }
    assert ScanPrefix(v, MinCmp, 5) == [0] by { assert MinCmp(v[4], v[0]) < 0; }
    assert ScanPrefix(v, MinCmp, 6) == [0] by { assert MinCmp(v[5], v[0]) < 0; }
    assert r == Some([0]);
  }

  /** `mfind_none` on the unshuffled list: the present values all tie until
      the first absent one beats them. */
  method UnshuffledNoneScenario() {
    var v := Unshuffled;
    var r := FindIdx(v, NoneCmp<int>);
    assert ScanPrefix(v, NoneCmp<int>, 2) == [0, 1] by { assert NoneCmp(v[1], v[0]) == 0; }
    assert ScanPrefix(v, NoneCmp<int>, 3) == [0, 1, 2] by { assert NoneCmp(v[2], v[0]) == 0; }
    assert ScanPrefix(v, NoneCmp<int>, 4) == [0, 1, 2, 3] by { assert NoneCmp(v[3], v[0]) == 0; }
    assert ScanPrefix(v, NoneCmp<int>, 5) == [4] by { assert NoneCmp(v[4], v[0]) > 0; }
    assert ScanPrefix(v, NoneCmp<int>, 6) == [4, 5] by { assert NoneCmp(v[5], v[4]) == 0; }
    assert r == Some([4, 5]);
  }

  /** `find_idx` with `mfind_min`: an absent value loses to every present
      one. */
  method AbsentLosesScenario() {
    var values := [Some(5), None, Some(3)];
    var r := FindIdx(values, MinCmp);
    assert ScanPrefix(values, MinCmp, 1) == [0];
    assert ScanPrefix(values, MinCmp, 2) == [0];
    assert ScanPrefix(values, MinCmp, 3) == [2];
    assert r == Some([2]);
  }

  /** `find_idx` with `mfind_min`: two absent values tie; an empty list gives
      `None`. */
  method AbsentTieScenario() {
    var values: seq<Option<int>> := [None, None];
    var r := FindIdx(values, MinCmp);
    assert MinCmp(values[1], values[0]) == 0;
    assert ScanPrefix(values, MinCmp, 1) == [0];
    assert ScanPrefix(values, MinCmp, 2) == [0, 1];
    assert r == Some([0, 1]);

    r := FindIdx([], MinCmp);
    assert r == None;
  }

  /** `find_idx` with `mfind_all_found` on flags true, false, true keeps the
      first and the last server. */
  method CompletenessScenario() {
    var a := ServerResult(None, None, true);
    var b := ServerResult(None, None, false);
    var flags := [a, b, a];
    var r := FindIdx(flags, AllFoundCmp<int>);
    assert ScanPrefix(flags, AllFoundCmp<int>, 1) == [0];
    assert ScanPrefix(flags, AllFoundCmp<int>, 2) == [0];
    assert ScanPrefix(flags, AllFoundCmp<int>, 3) == [0, 2];
    assert r == Some([0, 2]);
  }

  /** Two servers, the first with an average of 10, the second without ping
      support: not all averages are absent, and the first server is the
      fastest. */
  method FastestScenario() {
    var results := [ServerResult(Some(10), Some(1), true), ServerResult(None, None, true)];
    assert !AvgAllNone(results);
    var r := FindIdx(results, FastestAvgCmp);
    assert ScanPrefix(results, FastestAvgCmp, 1) == [0];
    assert ScanPrefix(results, FastestAvgCmp, 2) == [0];
    assert r == Some([0]);
  }

  /** A server that does not answer ping, checked against an empty site list:
      no latency figures, and every (zero) site found. */
  method UnreachableServerScenario(lookupOutput: string -> string) {
    var count := DecimalString(PingRepeat);
    var summary := count + " packets transmitted, 0 packets received";
    assert count == "10";
    assert '\n' !in summary;
    assert summary[..|count|] == count;
    var lines := [summary, ""];
    assert OneLine(lines);
    PingEvalByLine(lines, PingRepeat);
    var r := EvaluateDns(Join(lines, '\n'), Some([]), lookupOutput);
    assert r == Ok(ServerResult(None, None, true));
  }
}
