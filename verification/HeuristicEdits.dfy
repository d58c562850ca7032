/** The edits of the heuristic optimizer: up to three guarded insertions into the agent's source text. */
module HeuristicEdits {
  import opened Wrappers
  import opened Substrings

  const MARKER := "When you are done, send a final text message"
  const QUOTES := "\"\"\""

  // The three lines of advice, joined from the parts that the proofs below single out.
  const PLAN_BODY := "- Maintain a TODO " + "plan" + " and update it as you progress."
  const MODE_BODY := "- Work in " + "non-interactive" + " mode; do not ask the user questions."
  const VERIFY_BODY := "- Always " + "verify" + " your solution " + "w"
                       + ("ith a concrete check " + "before finishing" + ".")

  /** The phrase whose presence switches the verification edit off. */
  const VERIFY_PHRASE := "verify" + " your solution " + "before finishing"

  function Snippet(body: string): string { "\n" + body + "\n" }

  // ---- _inject_after_instruction ----

  /** Where `split` cuts at the first two triple quotes, when there are two. */
  function Split(agent: string): (r: Option<(nat, nat)>)
    ensures r.Some? ==> OccursAt(agent, QUOTES, r.value.0) && OccursAt(agent, QUOTES, r.value.1)
                        && r.value.0 + 3 <= r.value.1
  {
    match Find(agent, QUOTES, 0)
    case None => None
    case Some(i) =>
      match Find(agent, QUOTES, i + 3)
      case None => None
      case Some(j) => Some((i, j))
  }

  /** Places a snippet before the closing marker, else inside the first triple-quoted text, else at the end. */
  function Inject(agent: string, snippet: string): string {
    match Find(agent, MARKER, 0)
    case Some(i) => agent[..i] + snippet + MARKER + agent[i + |MARKER|..]
    case None =>
      match Split(agent)
      case Some((i, j)) =>
        agent[..i] + QUOTES + agent[i + 3..j] + snippet + QUOTES + agent[j + 3..]
      case None => agent + "\n" + snippet
  }

  /** The position at which `Inject` inserts. */
  function Point(agent: string): (at: nat)
    ensures at <= |agent|
    ensures at == |agent| || agent[at] == 'W' || agent[at] == '"'
  {
    match Find(agent, MARKER, 0)
    case Some(i) => assert agent[i + 0] == MARKER[0]; i
    case None =>
      match Split(agent)
      case Some((_, j)) => assert agent[j + 0] == QUOTES[0]; j
      case None => |agent|
  }

  /** The text that `Inject` inserts: appending puts one more line break in front. */
  function Piece(agent: string, snippet: string): string {
    if Find(agent, MARKER, 0).None? && Split(agent).None? then "\n" + snippet else snippet
  }

  lemma SameAs(text: string, pattern: string, i: nat)
    requires OccursAt(text, pattern, i)
    ensures text[i..i + |pattern|] == pattern
  {
    forall k | 0 <= k < |pattern| ensures text[i..i + |pattern|][k] == pattern[k] {
      assert text[i + k] == pattern[k];
    }
  }

  lemma InsertBeforeMark(text: string, at: nat, mark: string, piece: string)
    requires OccursAt(text, mark, at)
    ensures text[..at] + piece + mark + text[at + |mark|..] == Insert(text, at, piece)
  {
    SameAs(text, mark, at);
    assert text[at..] == mark + text[at + |mark|..];
  }

  lemma RejoinFirstPart(text: string, i: nat, j: nat, mark: string)
    requires OccursAt(text, mark, i) && i + |mark| <= j <= |text|
    ensures text[..i] + mark + text[i + |mark|..j] == text[..j]
  {
    SameAs(text, mark, i);
    assert text[..j] == text[..i] + text[i..i + |mark|] + text[i + |mark|..j];
  }

  lemma AppendIsInsert(text: string, piece: string)
    ensures text + "\n" + piece == Insert(text, |text|, "\n" + piece)
  {
    assert text[|text|..] == "";
  }

  /** Every branch of the injection is an insertion at one point. */
  lemma InjectInserts(agent: string, snippet: string)
    ensures Inject(agent, snippet) == Insert(agent, Point(agent), Piece(agent, snippet))
  {
    hide Find, Split;
    match Find(agent, MARKER, 0)
    case Some(i) => InsertBeforeMark(agent, i, MARKER, snippet);
    case None =>
      match Split(agent)
      case None => AppendIsInsert(agent, snippet);
      case Some((i, j)) =>
        RejoinFirstPart(agent, i, j, QUOTES);
        InsertBeforeMark(agent, j, QUOTES, snippet);
  }

  // ---- The guarded edits ----

  predicate NeedsPlan(agent: string) { !Contains(agent, "TODO") && !Contains(Lower(agent), "plan") }

  predicate NeedsMode(agent: string) { !Contains(Lower(agent), "non-interactive") }

  predicate NeedsVerify(agent: string) { !Contains(Lower(agent), VERIFY_PHRASE) }

  function InjectIf(needed: bool, agent: string, body: string): string {
    if needed then Inject(agent, Snippet(body)) else agent
  }

  /** The edited agent; every guard looks at the agent as it came in. */
  function Edited(agent: string): string {
    InjectIf(NeedsVerify(agent),
             InjectIf(NeedsMode(agent), InjectIf(NeedsPlan(agent), agent, PLAN_BODY), MODE_BODY),
             VERIFY_BODY)
  }

  /** What the rationale of a proposal names. */
  datatype Change = PlanningAdded | ModeAdded | VerificationStrengthened

  function ChangeIf(needed: bool, change: Change): seq<Change> {
    if needed then [change] else []
  }

  // ---- What an edit is, told of the agent's text ----

  /** The first occurrence from `from` on. */
  predicate FirstAt(text: string, pattern: string, from: nat, at: nat) {
    from <= at && OccursAt(text, pattern, at) && forall j | from <= j < at :: !OccursAt(text, pattern, j)
  }

  /** There are two triple quotes, one behind the other. */
  predicate QuotedText(agent: string) {
    exists i, j | 0 <= i <= |agent| && i + 3 <= j <= |agent| ::
      OccursAt(agent, "\"\"\"", i) && OccursAt(agent, "\"\"\"", j)
  }

  /** Where a snippet goes, and as what: in front of the first closing sentence; without one in front of the triple
      quotes that end the first quoted text; without that behind everything, on a line of its own. */
  ghost predicate GoesTo(agent: string, snippet: string, at: nat, piece: string) {
    if Contains(agent, "When you are done, send a final text message")
    then FirstAt(agent, "When you are done, send a final text message", 0, at) && piece == snippet
    else if QuotedText(agent)
    then (exists i: nat :: FirstAt(agent, "\"\"\"", 0, i) && FirstAt(agent, "\"\"\"", i + 3, at)) && piece == snippet
    else at == |agent| && piece == "\n" + snippet
  }

  ghost predicate GetsSnippet(before: string, snippet: string, after: string) {
    exists at: nat, piece: string :: GoesTo(before, snippet, at, piece) && at <= |before|
                                     && after == before[..at] + piece + before[at..]
  }

  ghost predicate GetsIf(needed: bool, before: string, snippet: string, after: string) {
    if needed then GetsSnippet(before, snippet, after) else after == before
  }

  /** The three sentences, each for an agent that had nothing of the kind when it came in. */
  ghost predicate StepsTold(agent: string, first: string, second: string, edited: string) {
    && GetsIf(!Contains(agent, "TODO") && !Contains(Lower(agent), "plan"), agent,
              "\n" + ("- Maintain a TODO " + "plan" + " and update it as you progress.") + "\n", first)
    && GetsIf(!Contains(Lower(agent), "non-interactive"), first,
              "\n" + ("- Work in " + "non-interactive" + " mode; do not ask the user questions.") + "\n", second)
    && GetsIf(!Contains(Lower(agent), "verify" + " your solution " + "before finishing"), second,
              "\n" + ("- Always " + "verify" + " your solution " + "w"
                      + ("ith a concrete check " + "before finishing" + ".")) + "\n", edited)
  }

  ghost predicate EditTold(agent: string, edited: string) {
    exists first, second :: StepsTold(agent, first, second, edited)
  }

  lemma MarkerFound(agent: string)
    ensures Find(agent, MARKER, 0).Some? <==> Contains(agent, MARKER)
  {
    if Find(agent, MARKER, 0).Some? {
      assert OccursAt(agent, MARKER, Find(agent, MARKER, 0).value);
    }
  }

  lemma QuotesFound(agent: string)
    ensures Split(agent).Some? <==> QuotedText(agent)
    ensures Split(agent).Some? ==>
              FirstAt(agent, QUOTES, 0, Split(agent).value.0)
              && FirstAt(agent, QUOTES, Split(agent).value.0 + 3, Split(agent).value.1)
  {
    if QuotedText(agent) {
      var i, j :| 0 <= i <= |agent| && i + 3 <= j <= |agent|
                  && OccursAt(agent, QUOTES, i) && OccursAt(agent, QUOTES, j);
      assert Find(agent, QUOTES, 0).Some? && Find(agent, QUOTES, 0).value <= i;
    }
  }

  lemma PointIsTold(agent: string, snippet: string)
    ensures GoesTo(agent, snippet, Point(agent), Piece(agent, snippet))
  {
    MarkerFound(agent);
    QuotesFound(agent);
    hide OccursAt, Contains, QuotedText;
  }

  lemma InjectIsTold(needed: bool, agent: string, body: string)
    ensures GetsIf(needed, agent, Snippet(body), InjectIf(needed, agent, body))
  {
    PointIsTold(agent, Snippet(body));
    InjectInserts(agent, Snippet(body));
    hide GoesTo, Snippet, Inject, Point, Piece;
  }

  lemma EditSteps(agent: string, first: string, second: string)
    requires GetsIf(NeedsPlan(agent), agent, Snippet(PLAN_BODY), first)
    requires GetsIf(NeedsMode(agent), first, Snippet(MODE_BODY), second)
    requires GetsIf(NeedsVerify(agent), second, Snippet(VERIFY_BODY), Edited(agent))
    ensures StepsTold(agent, first, second, Edited(agent))
  {
    hide Contains, Lower, GetsIf, Edited;
  }

  lemma EditedInSteps(agent: string) returns (first: string, second: string)
    ensures StepsTold(agent, first, second, Edited(agent))
  {
    hide Contains, Lower, Snippet, InjectIf, GetsIf, StepsTold, NeedsPlan, NeedsMode, NeedsVerify;
    first := InjectIf(NeedsPlan(agent), agent, PLAN_BODY);
    second := InjectIf(NeedsMode(agent), first, MODE_BODY);
    InjectIsTold(NeedsPlan(agent), agent, PLAN_BODY);
    InjectIsTold(NeedsMode(agent), first, MODE_BODY);
    InjectIsTold(NeedsVerify(agent), second, VERIFY_BODY);
    EditSteps(agent, first, second);
  }

  lemma FirstIsOne(text: string, pattern: string, from: nat, a: nat, b: nat)
    requires FirstAt(text, pattern, from, a) && FirstAt(text, pattern, from, b)
    ensures a == b
  {
    hide OccursAt;
  }

  lemma OnePlace(agent: string, snippet: string, a: nat, piece: string, b: nat, other: string)
    requires GoesTo(agent, snippet, a, piece) && GoesTo(agent, snippet, b, other)
    ensures a == b && piece == other
  {
    hide FirstAt, Contains, QuotedText;
    if Contains(agent, "When you are done, send a final text message") {
      FirstIsOne(agent, "When you are done, send a final text message", 0, a, b);
    } else if QuotedText(agent) {
      var i: nat :| FirstAt(agent, "\"\"\"", 0, i) && FirstAt(agent, "\"\"\"", i + 3, a);
      var j: nat :| FirstAt(agent, "\"\"\"", 0, j) && FirstAt(agent, "\"\"\"", j + 3, b);
      FirstIsOne(agent, "\"\"\"", 0, i, j);
      FirstIsOne(agent, "\"\"\"", i + 3, a, b);
    }
  }

  lemma OneResult(needed: bool, before: string, snippet: string, a: string, b: string)
    requires GetsIf(needed, before, snippet, a) && GetsIf(needed, before, snippet, b)
    ensures a == b
  {
    hide GoesTo;
    if needed {
      var i: nat, piece: string :| GoesTo(before, snippet, i, piece) && i <= |before|
                                   && a == before[..i] + piece + before[i..];
      var j: nat, other: string :| GoesTo(before, snippet, j, other) && j <= |before|
                                   && b == before[..j] + other + before[j..];
      OnePlace(before, snippet, i, piece, j, other);
    }
  }

  lemma OneEdit(agent: string, first: string, second: string, a: string, first': string, second': string, b: string)
    requires StepsTold(agent, first, second, a) && StepsTold(agent, first', second', b)
    ensures a == b
  {
    hide Contains, Lower, GetsIf;
    var plan, mode := "\n" + ("- Maintain a TODO " + "plan" + " and update it as you progress.") + "\n",
                      "\n" + ("- Work in " + "non-interactive" + " mode; do not ask the user questions.") + "\n";
    OneResult(!Contains(agent, "TODO") && !Contains(Lower(agent), "plan"), agent, plan, first, first');
    OneResult(!Contains(Lower(agent), "non-interactive"), first, mode, second, second');
    OneResult(!Contains(Lower(agent), "verify" + " your solution " + "before finishing"), second,
              "\n" + ("- Always " + "verify" + " your solution " + "w"
                      + ("ith a concrete check " + "before finishing" + ".")) + "\n", a, b);
  }

  /** Main result: the edit is what is told of it, and nothing else is. */
  lemma EditIsTold(agent: string, edited: string)
    ensures EditTold(agent, edited) <==> edited == Edited(agent)
  {
    hide Contains, Lower, Snippet, InjectIf, GetsIf, StepsTold, NeedsPlan, NeedsMode, NeedsVerify, Edited;
    var first, second := EditedInSteps(agent);
    if EditTold(agent, edited) {
      var first', second' :| StepsTold(agent, first', second', edited);
      OneEdit(agent, first', second', edited, first, second, Edited(agent));
    }
  }

  // ---- Only insertions ----

  /** One optional insertion: taking the piece out again gives the text before it. */
  predicate OneInsertion(before: string, after: string, at: nat, count: nat) {
    at + count <= |after| && Delete(after, at, count) == before
  }

  lemma InjectIfInserts(needed: bool, agent: string, body: string) returns (at: nat, count: nat)
    ensures OneInsertion(agent, InjectIf(needed, agent, body), at, count)
    ensures if needed then count >= |Snippet(body)| else count == 0
  {
    at, count := 0, 0;
    if needed {
      var piece := Piece(agent, Snippet(body));
      at, count := Point(agent), |piece|;
      InjectInserts(agent, Snippet(body));
      DeleteUndoesInsert(agent, at, piece);
    }
  }

  /** The edit only inserts: deleting three stretches, last first, restores the agent it was given. */
  lemma EditOnlyInserts(agent: string)
    ensures exists first, second, at1: nat, n1: nat, at2: nat, n2: nat, at3: nat, n3: nat ::
              && OneInsertion(agent, first, at1, n1)
              && OneInsertion(first, second, at2, n2)
              && OneInsertion(second, Edited(agent), at3, n3)
    ensures Edited(agent) == agent <==> !NeedsPlan(agent) && !NeedsMode(agent) && !NeedsVerify(agent)
  {
    var first := InjectIf(NeedsPlan(agent), agent, PLAN_BODY);
    var second := InjectIf(NeedsMode(agent), first, MODE_BODY);
    var at1, n1 := InjectIfInserts(NeedsPlan(agent), agent, PLAN_BODY);
    var at2, n2 := InjectIfInserts(NeedsMode(agent), first, MODE_BODY);
    var at3, n3 := InjectIfInserts(NeedsVerify(agent), second, VERIFY_BODY);
    assert |Edited(agent)| == |agent| + n1 + n2 + n3;
  }

  lemma UnchangedIff(agent: string)
    ensures Edited(agent) == agent <==> !NeedsPlan(agent) && !NeedsMode(agent) && !NeedsVerify(agent)
  {
    EditOnlyInserts(agent);
  }

  /** The edits of `_propose_heuristic`, with the changes its rationale names. */
  method ProposeEdits(current: string) returns (agent: string, rationale: seq<Change>)
    ensures agent == Edited(current)
    ensures rationale == ChangeIf(NeedsPlan(current), PlanningAdded) + ChangeIf(NeedsMode(current), ModeAdded)
                         + ChangeIf(NeedsVerify(current), VerificationStrengthened)
    ensures rationale == [] <==> agent == current
  {
    hide Inject, Snippet, Contains, Lower;
    agent, rationale := current, [];
    if !Contains(current, "TODO") && !Contains(Lower(current), "plan") {
      agent := Inject(agent, Snippet(PLAN_BODY));
      rationale := rationale + [PlanningAdded];
    }
    if !Contains(Lower(current), "non-interactive") {
      agent := Inject(agent, Snippet(MODE_BODY));
      rationale := rationale + [ModeAdded];
    }
    if !Contains(Lower(current), VERIFY_PHRASE) {
      agent := Inject(agent, Snippet(VERIFY_BODY));
      rationale := rationale + [VerificationStrengthened];
    }
    UnchangedIff(current);
  }

  // ---- What an edit keeps ----

  /** Patterns no insertion point can split: both the marker and the quotes start with a foreign character. */
  predicate Unsplittable(pattern: string) {
    'w' !in pattern && '"' !in pattern
  }

  lemma InjectKeeps(needed: bool, agent: string, body: string, pattern: string)
    requires Unsplittable(pattern) && Contains(Lower(agent), pattern)
    ensures Contains(Lower(InjectIf(needed, agent, body)), pattern)
  {
    if needed {
      var at, piece := Point(agent), Piece(agent, Snippet(body));
      InjectInserts(agent, Snippet(body));
      LowerOfInsert(agent, at, piece);
      InsertKeepsPattern(Lower(agent), at, Lower(piece), pattern);
    }
  }

  /** No guard phrase and no boost phrase of an agent is ever broken by the edit. */
  lemma EditKeeps(agent: string, pattern: string)
    requires Unsplittable(pattern) && Contains(Lower(agent), pattern)
    ensures Contains(Lower(Edited(agent)), pattern)
  {
    var first := InjectIf(NeedsPlan(agent), agent, PLAN_BODY);
    var second := InjectIf(NeedsMode(agent), first, MODE_BODY);
    InjectKeeps(NeedsPlan(agent), agent, PLAN_BODY, pattern);
    InjectKeeps(NeedsMode(agent), first, MODE_BODY, pattern);
    InjectKeeps(NeedsVerify(agent), second, VERIFY_BODY, pattern);
  }

  // ---- What an edit brings ----

  lemma SnippetContains(agent: string, body: string, pattern: string)
    requires Contains(body, pattern)
    ensures Contains(Piece(agent, Snippet(body)), pattern)
  {
    var piece := Piece(agent, Snippet(body));
    var i :| 0 <= i <= |body| && OccursAt(body, pattern, i);
    var shift := |piece| - |body| - 1;
    assert piece[shift..shift + |body|] == body;
    forall k | 0 <= k < |pattern| ensures piece[shift + i + k] == pattern[k] {
      assert body[i + k] == pattern[k];
    }
    assert OccursAt(piece, pattern, shift + i);
  }

  lemma InjectBrings(agent: string, body: string, pattern: string)
    requires Contains(body, pattern)
    ensures Contains(Lower(Inject(agent, Snippet(body))), Lower(pattern))
  {
    InjectInserts(agent, Snippet(body));
    SnippetContains(agent, body, pattern);
    InsertBringsPattern(agent, Point(agent), Piece(agent, Snippet(body)), pattern);
    LowerKeepsPattern(Inject(agent, Snippet(body)), pattern);
  }

  lemma PlanBodyContains()
    ensures Contains(PLAN_BODY, "plan")
  {
    MiddleOccurs("- Maintain a TODO ", "plan", " and update it as you progress.");
  }

  lemma ModeBodyContains()
    ensures Contains(MODE_BODY, "non-interactive")
  {
    hide Contains;
    MiddleOccurs("- Work in ", "non-interactive", " mode; do not ask the user questions.");
  }

  lemma VerifyBodyContainsVerify()
    ensures Contains(VERIFY_BODY, "verify")
  {
    hide Contains;
    var rest := " your solution " + "w" + ("ith a concrete check " + "before finishing" + ".");
    assert VERIFY_BODY == "- Always " + "verify" + rest;
    MiddleOccurs("- Always ", "verify", rest);
  }

  lemma VerifyBodyContainsFinish()
    ensures Contains(VERIFY_BODY, "before finishing")
  {
    hide Contains;
    var head := "- Always " + "verify" + " your solution " + "w" + "ith a concrete check ";
    assert VERIFY_BODY == head + "before finishing" + ".";
    MiddleOccurs(head, "before finishing", ".");
  }

  lemma PlanIsLower()
    ensures Lower("plan") == "plan"
  {
  }

  lemma ModeIsLower()
    ensures Lower("non-interactive") == "non-interactive"
  {
  }

  lemma VerifyIsLower()
    ensures Lower("verify") == "verify"
  {
  }

  lemma FinishIsLower()
    ensures Lower("before finishing") == "before finishing"
  {
  }

  // ---- What an edit does not bring ----

  /** A piece framed by line breaks creates no occurrence of a one-line pattern across its edges. */
  lemma NoNewOccurrence(text: string, at: nat, body: string, pattern: string)
    requires at <= |text| && '\n' !in pattern
    requires Contains(Insert(text, at, "\n" + body + "\n"), pattern)
    ensures Contains(text, pattern) || Contains(body, pattern)
  {
    var rest := body + ['\n'] + text[at..];
    assert Insert(text, at, "\n" + body + "\n") == text[..at] + ['\n'] + rest;
    SeparatorSplits(text[..at], '\n', rest, pattern);
    if Contains(rest, pattern) {
      SeparatorSplits(body, '\n', text[at..], pattern);
    }
    if !Contains(body, pattern) {
      PrefixAndSuffixContain(text, at, pattern);
    }
  }

  /** A leading line break makes no new occurrence of a one-line pattern either. */
  lemma NoNewOccurrenceBehindBreak(text: string, at: nat, body: string, pattern: string)
    requires at <= |text| && '\n' !in pattern && pattern != []
    requires Contains(Insert(text, at, "\n" + ("\n" + body) + "\n"), pattern)
    ensures Contains(text, pattern) || Contains(body, pattern)
  {
    NoNewOccurrence(text, at, "\n" + body, pattern);
    if Contains("\n" + body, pattern) {
      assert "\n" + body == "" + ['\n'] + body;
      SeparatorSplits("", '\n', body, pattern);
      ForeignCharacterExcludes("", pattern, pattern[0]);
    }
  }

  lemma LowerOfPiece(agent: string, body: string)
    ensures Lower(Piece(agent, Snippet(body))) == "\n" + Lower(body) + "\n"
         || Lower(Piece(agent, Snippet(body))) == "\n" + ("\n" + Lower(body)) + "\n"
  {
    hide Find, Split;
    var snippet := Snippet(body);
    assert Piece(agent, snippet) == snippet || Piece(agent, snippet) == "\n" + snippet;
    assert Lower(snippet) == "\n" + Lower(body) + "\n";
    assert Lower("\n" + snippet) == "\n" + ("\n" + Lower(body)) + "\n";
  }

  lemma InjectBringsNothingElse(needed: bool, agent: string, body: string, pattern: string)
    requires '\n' !in pattern && pattern != [] && !Contains(Lower(body), pattern)
    requires Contains(Lower(InjectIf(needed, agent, body)), pattern)
    ensures Contains(Lower(agent), pattern)
  {
    if needed {
      var at, piece := Point(agent), Piece(agent, Snippet(body));
      hide Contains, Lower, Find, Split, Inject, Insert, Snippet, Piece;
      InjectInserts(agent, Snippet(body));
      LowerOfInsert(agent, at, piece);
      LowerOfPiece(agent, body);
      if Lower(piece) == "\n" + Lower(body) + "\n" {
        NoNewOccurrence(Lower(agent), at, Lower(body), pattern);
      } else {
        NoNewOccurrenceBehindBreak(Lower(agent), at, Lower(body), pattern);
      }
    }
  }

  lemma LowerAvoids(text: string, c: char)
    requires 'a' <= c <= 'z' && c !in text && (c as int - 32) as char !in text
    ensures c !in Lower(text)
  {
  }

  // Which letters tell the advice apart from the phrase.

  lemma PlanAvoidsF()
    ensures 'f' !in Lower(PLAN_BODY)
  {
    assert 'f' !in PLAN_BODY;
    assert 'F' !in PLAN_BODY;
    LowerAvoids(PLAN_BODY, 'f');
  }

  lemma ModeAvoidsF()
    ensures 'f' !in Lower(MODE_BODY)
  {
    assert 'f' !in MODE_BODY;
    assert 'F' !in MODE_BODY;
    LowerAvoids(MODE_BODY, 'f');
  }

  const VERIFY_HEAD := "- Always " + "verify" + " your solution "
  const VERIFY_TAIL := "ith a concrete check " + "before finishing" + "."

  lemma HeadAvoidsB()
    ensures 'b' !in Lower(VERIFY_HEAD)
  {
    assert 'b' !in VERIFY_HEAD;
    assert 'B' !in VERIFY_HEAD;
    LowerAvoids(VERIFY_HEAD, 'b');
  }

  lemma TailAvoidsV()
    ensures 'v' !in Lower(VERIFY_TAIL)
  {
    assert 'v' !in VERIFY_TAIL;
    assert 'V' !in VERIFY_TAIL;
    LowerAvoids(VERIFY_TAIL, 'v');
  }

  lemma PhraseLetters()
    ensures 'f' in VERIFY_PHRASE && 'b' in VERIFY_PHRASE && 'v' in VERIFY_PHRASE
  {
    assert VERIFY_PHRASE[0] == 'v';
    assert VERIFY_PHRASE[4] == 'f';
    assert VERIFY_PHRASE[21] == 'b';
  }

  lemma PhraseIsOneLine()
    ensures '\n' !in VERIFY_PHRASE && VERIFY_PHRASE != []
  {
  }

  lemma PhraseIsUnsplittable()
    ensures Unsplittable(VERIFY_PHRASE)
  {
  }

  lemma PlanAndModeLackPhrase()
    ensures !Contains(Lower(PLAN_BODY), VERIFY_PHRASE) && !Contains(Lower(MODE_BODY), VERIFY_PHRASE)
  {
    var phrase, plan, mode := VERIFY_PHRASE, Lower(PLAN_BODY), Lower(MODE_BODY);
    PhraseLetters();
    PlanAvoidsF();
    ModeAvoidsF();
    ForeignCharacterExcludes(plan, phrase, 'f');
    ForeignCharacterExcludes(mode, phrase, 'f');
  }

  lemma LackedByHalves(head: string, tail: string, pattern: string, inHead: char, inTail: char)
    requires 'w' !in pattern && inHead in pattern && inTail in pattern
    requires inHead !in Lower(head) && inTail !in Lower(tail)
    ensures !Contains(Lower(head + "w" + tail), pattern)
  {
    ForeignCharacterExcludes(Lower(head), pattern, inHead);
    ForeignCharacterExcludes(Lower(tail), pattern, inTail);
    assert Lower(head + "w" + tail) == Lower(head) + ['w'] + Lower(tail);
    if Contains(Lower(head + "w" + tail), pattern) {
      SeparatorSplits(Lower(head), 'w', Lower(tail), pattern);
    }
  }

  /** The verification advice does not contain the phrase that would switch it off. */
  lemma VerifyBodyLacksPhrase()
    ensures !Contains(Lower(VERIFY_BODY), VERIFY_PHRASE)
  {
    PhraseLetters();
    PhraseIsUnsplittable();
    HeadAvoidsB();
    TailAvoidsV();
    LackedByHalves(VERIFY_HEAD, VERIFY_TAIL, VERIFY_PHRASE, 'b', 'v');
  }

  /** A phrase foreign to all three lines of advice is in the edited agent only if it was there before. */
  lemma EditKeepsPhrase(agent: string, phrase: string)
    requires Unsplittable(phrase) && '\n' !in phrase && phrase != []
    requires !Contains(Lower(PLAN_BODY), phrase) && !Contains(Lower(MODE_BODY), phrase)
    requires !Contains(Lower(VERIFY_BODY), phrase)
    ensures Contains(Lower(Edited(agent)), phrase) <==> Contains(Lower(agent), phrase)
  {
    var first := InjectIf(NeedsPlan(agent), agent, PLAN_BODY);
    var second := InjectIf(NeedsMode(agent), first, MODE_BODY);
    if Contains(Lower(agent), phrase) {
      EditKeeps(agent, phrase);
    } else if Contains(Lower(Edited(agent)), phrase) {
      InjectBringsNothingElse(NeedsVerify(agent), second, VERIFY_BODY, phrase);
      InjectBringsNothingElse(NeedsMode(agent), first, MODE_BODY, phrase);
      InjectBringsNothingElse(NeedsPlan(agent), agent, PLAN_BODY, phrase);
    }
  }

  /** The edit leaves the verification guard exactly as it found it. */
  lemma EditKeepsVerifyGuard(agent: string)
    ensures NeedsVerify(Edited(agent)) == NeedsVerify(agent)
  {
    PhraseIsOneLine();
    PhraseIsUnsplittable();
    PlanAndModeLackPhrase();
    VerifyBodyLacksPhrase();
    EditKeepsPhrase(agent, VERIFY_PHRASE);
  }

  lemma InjectKeepsExact(needed: bool, agent: string, body: string, pattern: string)
    requires 'W' !in pattern && '"' !in pattern && Contains(agent, pattern)
    ensures Contains(InjectIf(needed, agent, body), pattern)
  {
    if needed {
      InjectInserts(agent, Snippet(body));
      InsertKeepsPattern(agent, Point(agent), Piece(agent, Snippet(body)), pattern);
    }
  }

  /** After an edit the planning guard and the mode guard are satisfied, whatever the agent was. */
  lemma EditSettlesPlanAndMode(agent: string)
    ensures !NeedsMode(Edited(agent))
    ensures Contains(Lower(Edited(agent)), "plan") || Contains(Edited(agent), "TODO")
  {
    var first := InjectIf(NeedsPlan(agent), agent, PLAN_BODY);
    var second := InjectIf(NeedsMode(agent), first, MODE_BODY);
    PlanBodyContains();
    PlanIsLower();
    ModeBodyContains();
    ModeIsLower();
    if NeedsMode(agent) {
      InjectBrings(first, MODE_BODY, "non-interactive");
      InjectKeeps(NeedsVerify(agent), second, VERIFY_BODY, "non-interactive");
    } else {
      EditKeeps(agent, "non-interactive");
    }
    if NeedsPlan(agent) {
      InjectBrings(agent, PLAN_BODY, "plan");
      InjectKeeps(NeedsMode(agent), first, MODE_BODY, "plan");
      InjectKeeps(NeedsVerify(agent), second, VERIFY_BODY, "plan");
    } else if Contains(Lower(agent), "plan") {
      EditKeeps(agent, "plan");
    } else {
      InjectKeepsExact(NeedsMode(agent), agent, MODE_BODY, "TODO");
      InjectKeepsExact(NeedsVerify(agent), second, VERIFY_BODY, "TODO");
    }
  }

  /** Main result: editing twice is editing once exactly for the agents that already carry the verification
      phrase. The advice the third edit adds lacks that phrase, so without it every edit adds the advice again. */
  lemma EditIsIdempotentIff(agent: string)
    ensures Edited(Edited(agent)) == Edited(agent) <==> Contains(Lower(agent), VERIFY_PHRASE)
  {
    EditKeepsVerifyGuard(agent);
    EditSettlesPlanAndMode(agent);
    EditOnlyInserts(Edited(agent));
  }

  // ---- Where the edits land ----

  function Optional(needed: bool, body: string): string {
    if needed then Snippet(body) else ""
  }

  lemma SomeCovered(text: string, mark: string, j: int, c: char) returns (q: int)
    requires OccursAt(text, mark, j) && c in mark
    ensures j <= q < j + |mark| && text[q] == c
  {
    var k :| 0 <= k < |mark| && mark[k] == c;
    q := j + k;
  }

  /** No mark begins before the end of a one-line snippet that sits in front of the first mark. */
  lemma NoEarlierMark(agent: string, i: nat, body: string, mark: string, j: nat)
    requires i <= |agent| && j < i + |Snippet(body)|
    requires '\n' !in mark && ',' in mark && ',' !in body
    requires OccursAt(Insert(agent, i, Snippet(body)), mark, j)
    ensures j < i && OccursAt(agent, mark, j)
  {
    var longer := Insert(agent, i, Snippet(body));
    CoveredCharacter(longer, mark, j, i);
    CoveredCharacter(longer, mark, j, i + |body| + 1);
    assert longer[i] == '\n' && longer[i + |body| + 1] == '\n';
    assert forall p | i < p < i + |body| + 1 :: longer[p] == body[p - i - 1];
    var _ := SomeCovered(longer, mark, j, ',');
    forall k | 0 <= k < |mark| ensures agent[j + k] == mark[k] {
      assert longer[j + k] == mark[k];
    }
  }

  lemma FirstMarkMoves(agent: string, i: nat, body: string, mark: string)
    requires Find(agent, mark, 0) == Some(i)
    requires '\n' !in mark && ',' in mark && ',' !in body
    ensures Find(Insert(agent, i, Snippet(body)), mark, 0) == Some(i + |Snippet(body)|)
  {
    var longer, end := Insert(agent, i, Snippet(body)), i + |Snippet(body)|;
    forall k | 0 <= k < |mark| ensures longer[end + k] == mark[k] {
      assert agent[i + k] == mark[k];
    }
    assert OccursAt(longer, mark, end);
    forall j | 0 <= j < end ensures !OccursAt(longer, mark, j) {
      if OccursAt(longer, mark, j) {
        NoEarlierMark(agent, i, body, mark, j);
      }
    }
  }

  lemma InjectBeforeMarker(agent: string, i: nat, snippet: string)
    requires Find(agent, MARKER, 0) == Some(i)
    ensures Inject(agent, snippet) == Insert(agent, i, snippet)
  {
    InjectInserts(agent, snippet);
  }

  lemma MarkerIsOneLine()
    ensures '\n' !in MARKER && ',' in MARKER
  {
    assert MARKER[17] == ',';
  }

  lemma InjectOnceAtMarker(agent: string, i: nat, body: string)
    requires Find(agent, MARKER, 0) == Some(i) && ',' !in body
    ensures i <= |agent| && Inject(agent, Snippet(body)) == Insert(agent, i, Snippet(body))
    ensures Find(Insert(agent, i, Snippet(body)), MARKER, 0) == Some(i + |Snippet(body)|)
  {
    assert i <= |agent|;
    hide *;
    MarkerIsOneLine();
    FirstMarkMoves(agent, i, body, MARKER);
    InjectBeforeMarker(agent, i, Snippet(body));
  }

  /** Injecting before the marker leaves the marker the first one of its kind, right behind the snippet. */
  lemma InjectAtMarker(agent: string, i: nat, needed: bool, body: string)
    requires Find(agent, MARKER, 0) == Some(i) && ',' !in body
    ensures InjectIf(needed, agent, body) == agent[..i] + Optional(needed, body) + agent[i..]
    ensures Find(InjectIf(needed, agent, body), MARKER, 0) == Some(i + |Optional(needed, body)|)
  {
    hide Find, Inject, Contains;
    if needed {
      InjectOnceAtMarker(agent, i, body);
    }
  }

  lemma PlanAvoidsComma()
    ensures ',' !in PLAN_BODY
  {
  }

  lemma ModeAvoidsComma()
    ensures ',' !in MODE_BODY
  {
  }

  lemma VerifyAvoidsComma()
    ensures ',' !in VERIFY_BODY
  {
  }

  lemma SplitsAt(head: string, middle: string, tail: string)
    ensures (head + middle + tail)[..|head| + |middle|] == head + middle
    ensures (head + middle + tail)[|head| + |middle|..] == tail
  {
  }

  /** One more injection: the marker stays the first one, and what follows it stays as it is. */
  lemma NextInjection(text: string, head: string, tail: string, needed: bool, body: string)
    requires text == head + tail && Find(text, MARKER, 0) == Some(|head|) && ',' !in body
    ensures InjectIf(needed, text, body) == (head + Optional(needed, body)) + tail
    ensures Find(InjectIf(needed, text, body), MARKER, 0) == Some(|head + Optional(needed, body)|)
  {
    hide InjectIf, Optional, Find;
    SplitsAt(head, "", tail);
    assert head + "" == head;
    InjectAtMarker(text, |head|, needed, body);
  }

  lemma ThreeInjections(agent: string, i: nat, need1: bool, body1: string, need2: bool, body2: string,
                        need3: bool, body3: string)
    requires Find(agent, MARKER, 0) == Some(i)
    requires ',' !in body1 && ',' !in body2 && ',' !in body3
    ensures InjectIf(need3, InjectIf(need2, InjectIf(need1, agent, body1), body2), body3)
         == agent[..i] + Optional(need1, body1) + Optional(need2, body2) + Optional(need3, body3) + agent[i..]
  {
    var head, tail := agent[..i], agent[i..];
    assert agent == head + tail && |head| == i;
    hide *;
    var first := InjectIf(need1, agent, body1);
    var second := InjectIf(need2, first, body2);
    NextInjection(agent, head, tail, need1, body1);
    NextInjection(first, head + Optional(need1, body1), tail, need2, body2);
    NextInjection(second, head + Optional(need1, body1) + Optional(need2, body2), tail, need3, body3);
  }

  /** In an agent with the closing marker the needed advice lands, in this order, right in front of it. */
  lemma EditsLandBeforeMarker(agent: string, i: nat)
    requires Find(agent, MARKER, 0) == Some(i)
    ensures Edited(agent) == agent[..i] + Optional(NeedsPlan(agent), PLAN_BODY)
                             + Optional(NeedsMode(agent), MODE_BODY)
                             + Optional(NeedsVerify(agent), VERIFY_BODY) + agent[i..]
  {
    PlanAvoidsComma();
    ModeAvoidsComma();
    VerifyAvoidsComma();
    ThreeInjections(agent, i, NeedsPlan(agent), PLAN_BODY, NeedsMode(agent), MODE_BODY,
                    NeedsVerify(agent), VERIFY_BODY);
  }
}
