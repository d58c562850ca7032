module Lessons {
  /** What one proposal contributes to the learning log of its job. */
  datatype Lesson = Lesson(iterationNo: nat, sourceVersionNo: nat, rationale: string, learnings: string)
}

/** The job's learning log: each proposal appends one entry, and the stored log is cut to a fixed size.
    The bounded log is shown to be a window on the log nobody ever cut. */
module LearningHistory {
  import opened Text
  import opened Lessons

  const HISTORY_CHARS := 16000
  const PROMPT_CHARS := 6000
  const MARKER := "\U{2026} earlier proposal history omitted \U{2026}\n\n"

  function Entry(l: Lesson): string {
    "## Proposal after iteration " + Decimal(l.iterationNo)
    + " (source agent v" + Decimal(l.sourceVersionNo) + ")\n"
    + "Rationale: " + StrippedOr(l.rationale, "(none)") + "\n"
    + "Learnings: " + StrippedOr(l.learnings, "(none)")
  }

  lemma EntryIs(iteration: string, source: string, rationale: string, learnings: string)
    ensures "## Proposal after iteration " + iteration + " (source agent v" + source + ")\n"
            + "Rationale: " + rationale + "\n" + "Learnings: " + learnings
         == "## Proposal after iteration " + iteration + " (source agent v" + source + ")\nRationale: "
            + rationale + "\nLearnings: " + learnings
  {
    assert ")\n" + "Rationale: " == ")\nRationale: " && "\n" + "Learnings: " == "\nLearnings: ";
  }

  /** How an entry reads: a headline with the two numbers, and behind their own labels the rationale and the learnings
      without the whitespace around them, or a stand-in for a blank one. */
  lemma EntryReads(l: Lesson) returns (iteration: string, source: string, rationale: string, learnings: string)
    ensures Entry(l) == "## Proposal after iteration " + iteration + " (source agent v" + source + ")\nRationale: "
                        + rationale + "\nLearnings: " + learnings
    ensures NumberOf(iteration) == l.iterationNo && NumberOf(source) == l.sourceVersionNo
    ensures Shows(rationale, l.rationale, "(none)") && Shows(learnings, l.learnings, "(none)")
  {
    iteration, source := Decimal(l.iterationNo), Decimal(l.sourceVersionNo);
    rationale, learnings := StrippedOr(l.rationale, "(none)"), StrippedOr(l.learnings, "(none)");
    EntryIs(iteration, source, rationale, learnings);
    DecimalReads(l.iterationNo);
    DecimalReads(l.sourceVersionNo);
    StrippedOrShows(l.rationale, "(none)");
    StrippedOrShows(l.learnings, "(none)");
    hide StrippedOr, Decimal, NumberOf, Shows;
  }

  function Entries(lessons: seq<Lesson>): seq<string> {
    seq(|lessons|, i requires 0 <= i < |lessons| => Entry(lessons[i]))
  }

  /** The stored log after one more entry. */
  function AppendEntry(existing: string, entry: string): string {
    var combined := if existing == [] then entry else Strip(StripRight(existing) + "\n\n" + entry);
    if |combined| <= HISTORY_CHARS then combined
    else MARKER + FromEnd(combined, HISTORY_CHARS - |MARKER|)
  }

  /** `append_learning_history`. */
  function Append(existing: string, l: Lesson): string {
    AppendEntry(existing, Entry(l))
  }

  /** The stored log after a run of appends, starting from the empty log of a new job. */
  function Stored(entries: seq<string>): string {
    if entries == [] then ""
    else AppendEntry(Stored(entries[..|entries| - 1]), entries[|entries| - 1])
  }

  /** The log with nothing ever cut: the entries separated by blank lines. */
  function Full(entries: seq<string>): string {
    if entries == [] then ""
    else if |entries| == 1 then entries[0]
    else Full(entries[..|entries| - 1]) + "\n\n" + entries[|entries| - 1]
  }

  lemma EntryIsTrimmed(l: Lesson)
    ensures Trimmed(Entry(l))
  {
    StripTrims(l.learnings);
    var tail := StrippedOr(l.learnings, "(none)");
    assert Trimmed(tail);
    assert Entry(l)[|Entry(l)| - 1] == tail[|tail| - 1];
    assert Entry(l)[0] == '#';
  }

  lemma JoinAssociates(a: string, b: string, c: string)
    ensures (a + "\n\n" + b) + "\n\n" + c == a + "\n\n" + (b + "\n\n" + c)
  {
  }

  /** The uncut log can be split behind any entry: both parts are logs, a blank line apart. */
  lemma {:induction false} FullSplits(entries: seq<string>, k: nat)
    requires 0 < k < |entries|
    ensures Full(entries) == Full(entries[..k]) + "\n\n" + Full(entries[k..])
    ensures |entries[k..]| == 1 ==> Full(entries[k..]) == entries[k]
  {
    var n := |entries| - 1;
    if k == n {
      assert entries[k..] == [entries[n]];
    } else {
      FullSplits(entries[..n], k);
      assert entries[..n][..k] == entries[..k] && entries[..n][k..] == entries[k..][..n - k];
      JoinAssociates(Full(entries[..k]), Full(entries[..n][k..]), entries[n]);
    }
  }

  lemma JoinIsTrimmed(a: string, b: string)
    requires Trimmed(a) && Trimmed(b)
    ensures Trimmed(a + "\n\n" + b)
  {
    var joined := a + "\n\n" + b;
    assert joined[0] == a[0] && joined[|joined| - 1] == b[|b| - 1];
  }

  lemma {:induction false} FullIsTrimmed(entries: seq<string>)
    requires entries != [] && forall e | e in entries :: Trimmed(e)
    ensures Trimmed(Full(entries))
  {
    if |entries| > 1 {
      FullIsTrimmed(entries[..|entries| - 1]);
      JoinIsTrimmed(Full(entries[..|entries| - 1]), entries[|entries| - 1]);
    }
  }

  /** How much of a log the stored copy holds. */
  function Window(full: string): string {
    if |full| <= HISTORY_CHARS then full else MARKER + Last(full, HISTORY_CHARS - |MARKER|)
  }

  lemma LastOfLonger(a: string, b: string, n: nat)
    requires n <= |b|
    ensures Last(a + b, n) == Last(b, n)
  {
  }

  lemma LastOfWindow(full: string, piece: string, kept: nat)
    requires kept < |full|
    ensures Last(MARKER + Last(full, kept) + piece, kept) == Last(full + piece, kept)
  {
    var gone, tail := full[..|full| - kept], Last(full, kept);
    assert full + piece == gone + (tail + piece);
    assert MARKER + tail + piece == MARKER + (tail + piece);
    LastOfLonger(gone, tail + piece, kept);
    LastOfLonger(MARKER, tail + piece, kept);
  }

  lemma WindowIsTrimmed(full: string)
    requires Trimmed(full)
    ensures Trimmed(Window(full))
  {
    if |full| > HISTORY_CHARS {
      var w := Window(full);
      assert w[0] == MARKER[0] && w[|w| - 1] == full[|full| - 1];
    }
  }

  /** Appending to a window on a log gives the window on the longer log. */
  lemma WindowStep(full: string, entry: string)
    requires Trimmed(full) && Trimmed(entry)
    ensures AppendEntry(Window(full), entry) == Window(full + "\n\n" + entry)
  {
    var existing, kept, piece := Window(full), HISTORY_CHARS - |MARKER|, "\n\n" + entry;
    WindowIsTrimmed(full);
    JoinIsTrimmed(existing, entry);
    StripTrims(existing + "\n\n" + entry);
    assert existing + "\n\n" + entry == existing + piece;
    assert full + "\n\n" + entry == full + piece;
    if |full| > HISTORY_CHARS {
      LastOfWindow(full, piece, kept);
    }
  }

  /** The window on entries that carry no outer whitespace. */
  lemma {:induction false} StoredIsWindow(entries: seq<string>)
    requires forall e | e in entries :: Trimmed(e)
    ensures Stored(entries) == Window(Full(entries))
  {
    if |entries| == 1 {
      var e := entries[0];
      assert Stored(entries) == AppendEntry("", e);
    } else if |entries| > 1 {
      StoredIsWindow(entries[..|entries| - 1]);
      FullIsTrimmed(entries[..|entries| - 1]);
      WindowStep(Full(entries[..|entries| - 1]), entries[|entries| - 1]);
      WindowIsTrimmed(Full(entries[..|entries| - 1]));
    }
  }

  /** Main result: after any run of appends the stored log is the uncut log when that fits, and otherwise
      the marker followed by exactly the last characters of the uncut log that still have room. */
  lemma StoredIsWindowOnFull(lessons: seq<Lesson>)
    ensures |Stored(Entries(lessons))| <= HISTORY_CHARS
    ensures Stored(Entries(lessons)) == Window(Full(Entries(lessons)))
    ensures var full, stored := Full(Entries(lessons)), Stored(Entries(lessons));
      && (|full| <= 16000 ==> stored == full)
      && (|full| > 16000 ==> |stored| == 16000 && stored == MARKER + full[|full| - (16000 - |MARKER|)..])
  {
    forall e | e in Entries(lessons) ensures Trimmed(e) {
      var i :| 0 <= i < |lessons| && Entries(lessons)[i] == e;
      EntryIsTrimmed(lessons[i]);
    }
    StoredIsWindow(Entries(lessons));
  }

  lemma LastOfWindowAlone(full: string, kept: nat, n: nat)
    requires n <= kept < |full|
    ensures Last(MARKER + Last(full, kept), n) == Last(full, n)
  {
  }

  /** Clipping the stored log for the prompt loses nothing against clipping the uncut log. */
  lemma PromptWindowIsLossless(lessons: seq<Lesson>)
    ensures ClipTail(Stored(Entries(lessons)), PROMPT_CHARS) == ClipTail(Full(Entries(lessons)), PROMPT_CHARS)
  {
    StoredIsWindowOnFull(lessons);
    if |Full(Entries(lessons))| > HISTORY_CHARS {
      LastOfWindowAlone(Full(Entries(lessons)), HISTORY_CHARS - |MARKER|, PROMPT_CHARS - |CLIP_TAIL_PREFIX|);
    }
  }

  /** The text of a longer log is made from the text of the shorter one by one append. */
  lemma StoredGrowsByAppend(lessons: seq<Lesson>, l: Lesson)
    ensures Stored(Entries(lessons + [l])) == Append(Stored(Entries(lessons)), l)
  {
    var all := Entries(lessons + [l]);
    assert all[..|all| - 1] == Entries(lessons);
  }

  lemma LastOfJoin(a: string, b: string, n: nat)
    requires |b| <= n
    ensures Last(Last(a + b, n), |b|) == b && Last(a + b, |b|) == b
  {
  }

  /** The uncut log ends in its newest entry. */
  lemma FullEndsWithNewest(entries: seq<string>) returns (before: string)
    requires entries != []
    ensures Full(entries) == before + entries[|entries| - 1]
  {
    before := if |entries| == 1 then "" else Full(entries[..|entries| - 1]) + "\n\n";
  }

  /** So does its window when the entry has room. */
  lemma WindowEndsWith(before: string, e: string)
    requires |e| <= HISTORY_CHARS - |MARKER|
    ensures Last(Window(before + e), |e|) == e
  {
    var full, kept := before + e, HISTORY_CHARS - |MARKER|;
    LastOfJoin(before, e, kept);
    if |full| > HISTORY_CHARS {
      var tail := Last(full, kept);
      LastOfJoin(MARKER, tail, kept);
      assert Last(MARKER + tail, |e|) == Last(tail, |e|) by {
        LastOfLonger(MARKER, tail, |e|);
      }
    }
  }

  /** The newest entry stays readable in full whenever it has room beside the marker. */
  lemma NewestEntrySurvives(lessons: seq<Lesson>, l: Lesson)
    ensures |Entry(l)| <= HISTORY_CHARS - |MARKER|
            ==> Last(Stored(Entries(lessons + [l])), |Entry(l)|) == Entry(l)
  {
    var all, e := Entries(lessons + [l]), Entry(l);
    StoredIsWindowOnFull(lessons + [l]);
    assert all[|all| - 1] == e;
    hide Entry, Window, Last, Stored, Full, Entries;
    if |e| <= HISTORY_CHARS - |MARKER| {
      var before := FullEndsWithNewest(all);
      WindowEndsWith(before, e);
    }
  }
}
