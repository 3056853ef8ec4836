/** The filter the driver applies to each line of the server and site files
    (src/dns_tester.py:185-192): every line is stripped, and blank lines and
    comment lines (starting with `#`) are dropped. */
module InputFilter {
  import opened Text

  /** A stripped line the driver keeps. */
  predicate IsEntry(line: string) {
    line != [] && line[0] != '#'
  }

  /** The entries of `lines` in file order. */
  function Entries(lines: seq<string>): (entries: seq<string>)
    ensures forall k :: 0 <= k < |entries| ==> IsEntry(entries[k]) && Strip(entries[k]) == entries[k]
  {
    if lines == [] then []
    else
      var line := Strip(lines[|lines| - 1]);
      StripIdempotent(lines[|lines| - 1]);
      Entries(lines[..|lines| - 1]) + (if IsEntry(line) then [line] else [])
  }

  /** An entry is kept exactly when some line strips to it. */
  lemma {:induction false} EntriesMembers(lines: seq<string>, e: string)
    ensures e in Entries(lines) <==> IsEntry(e) && exists line :: line in lines && Strip(line) == e
  {
    if lines != [] {
      var init, last := lines[..|lines| - 1], lines[|lines| - 1];
      EntriesMembers(init, e);
      assert lines == init + [last];
      if IsEntry(e) && Strip(last) != e {
        forall line | line in lines && Strip(line) == e
          ensures line in init
        {
        }
      }
    }
  }

  /** The driver's loop: each line read is stripped and appended when it is
      neither blank nor a comment. */
  method ReadEntries(lines: seq<string>) returns (entries: seq<string>)
    ensures entries == Entries(lines)
  {
    entries := [];
    for i := 0 to |lines|
      invariant entries == Entries(lines[..i])
    {
      var line := Strip(lines[i]);
      if line != [] && line[0] != '#' {
        entries := entries + [line];
      }
      assert lines[..i + 1][..i] == lines[..i];
    }
    assert lines[..|lines|] == lines;
  }

  /** Filtering the entries again changes nothing. */
  lemma EntriesIdempotent(lines: seq<string>)
    ensures Entries(Entries(lines)) == Entries(lines)
  {
    EntriesOfEntries(Entries(lines));
  }

  /** A list of entries passes the filter unchanged. */
  lemma {:induction false} EntriesOfEntries(es: seq<string>)
    requires forall k :: 0 <= k < |es| ==> IsEntry(es[k]) && Strip(es[k]) == es[k]
    ensures Entries(es) == es
  {
    if es != [] {
      var init, last := es[..|es| - 1], es[|es| - 1];
      assert forall k :: 0 <= k < |init| ==> init[k] == es[k];
      EntriesOfEntries(init);
      assert Strip(last) == last && IsEntry(last);
      InitLast(es);
    }
  }

  lemma InitLast<T>(s: seq<T>)
    requires s != []
    ensures s[..|s| - 1] + [s[|s| - 1]] == s
  {
  }
}
