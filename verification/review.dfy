/**
 * The review pass: the same street list as the batch pass, but each proposed
 * translation waits for a command from the operator, at most `limit`
 * translations are requested per run, and a cursor persisted between runs
 * says where the next run resumes.
 */
module Review {
  import opened Wrappers
  import opened Tags
  import opened Translation
  import opened Streets
  import opened Session

  /**
   * One answer typed at the prompt, already trimmed and lower-cased: accept,
   * reject, edit (carrying the trimmed replacement typed at the second prompt,
   * or None when the input ends before that line), quit, continue without
   * limit, or anything else.
   */
  datatype Command = Yes | No | Edit(text: Option<string>) | Quit | Unlimited | Invalid

  /** What a settled prompt decided about the proposal. */
  datatype Decision = Approve(name: string) | Reject | QuitReview | LiftLimit

  /**
   * The decision a command settles the prompt with, or None when the command
   * is not understood and the prompt repeats (add_kyrgyz_names.py:173-204).
   * An edit with empty text rejects; an edit whose text never arrived decides
   * nothing, since reading it fails.
   */
  function Decide(c: Command, proposal: string): Option<Decision>
  {
    match c
    case Yes => Some(Approve(proposal))
    case No => Some(Reject)
    case Edit(text) =>
      (match text
       case None => None
       case Some(t) => Some(if t == "" then Reject else Approve(t)))
    case Quit => Some(QuitReview)
    case Unlimited => Some(LiftLimit)
    case Invalid => None
  }

  /**
   * Reads commands until one settles the prompt (add_kyrgyz_names.py:170-204):
   * the decision and the commands left over, or None when the input runs out
   * first, at the prompt itself or at the second line an edit asks for
   * (add_kyrgyz_names.py:171, 184). Unrecognised commands are consumed and
   * change nothing.
   */
  function Prompt(commands: seq<Command>, proposal: string): (r: Option<(Decision, seq<Command>)>)
    ensures (forall j :: 0 <= j < |commands| ==> commands[j] == Invalid) ==> r.None?
    ensures r.Some? ==> |r.value.1| < |commands|
    ensures r.Some? && r.value.0.Approve? && proposal != "" ==> r.value.0.name != ""
    decreases |commands|
  {
    if |commands| == 0 || commands[0] == Edit(None) then None
    else
      match Decide(commands[0], proposal)
      case Some(d) => Some((d, commands[1..]))
      case None => Prompt(commands[1..], proposal)
  }

  /** The position of the first command that is not invalid, or the length when there is none. */
  function FirstValid(commands: seq<Command>): (n: nat)
    ensures n <= |commands|
    ensures forall j :: 0 <= j < n ==> commands[j] == Invalid
    ensures n < |commands| ==> commands[n] != Invalid
    decreases |commands|
  {
    if |commands| == 0 || commands[0] != Invalid then 0 else 1 + FirstValid(commands[1..])
  }

  /**
   * The prompt is settled by the first command that is not invalid, the
   * invalid ones before it being consumed without effect: it fails exactly
   * when there is no such command or that command is an edit whose text never
   * arrived; otherwise its decision is that command's and the commands left
   * over are the ones after it.
   */
  lemma {:induction false} PromptSettlesAtFirstValid(commands: seq<Command>, proposal: string)
    ensures var r := Prompt(commands, proposal);
      var n := FirstValid(commands);
      && (r.None? <==> n == |commands| || commands[n] == Edit(None))
      && (r.Some? ==> Decide(commands[n], proposal) == Some(r.value.0) && r.value.1 == commands[n + 1..])
    decreases |commands|
  {
    if |commands| > 0 && commands[0] == Invalid {
      PromptSettlesAtFirstValid(commands[1..], proposal);
      var n := FirstValid(commands[1..]);
      if n < |commands[1..]| {
        assert commands[1..][n + 1..] == commands[n + 2..];
      }
    }
  }

  /**
   * The review loop's variables: the ways, the counters, how many
   * translations were requested, the limit (None once lifted), the cursor
   * last persisted, and the commands not read yet.
   */
  datatype State = State(ways: seq<Way>, processed: nat, errors: nat, skipped: nat,
                         reviewed: nat, limit: Option<nat>, cursor: nat, commands: seq<Command>)

  /** The number of requested translations has reached a finite limit. */
  predicate LimitReached(s: State)
  {
    s.limit.Some? && s.reviewed >= s.limit.value
  }

  /**
   * How one iteration ends: the loop goes on, the loop breaks (recording
   * whether the interruption flag is set), or reading a command hit the end of
   * the input and the exception left the pass with the cursor last persisted.
   */
  datatype StepResult = Next(state: State) | Halt(state: State, interrupted: bool) | Crash(cursor: nat)

  /**
   * One iteration of the review loop for street `i` (add_kyrgyz_names.py:144-212).
   */
  function ReviewStep(s: State, items: seq<Street>, i: nat, start: nat,
                      translate: Translator, flags: seq<bool>): (r: StepResult)
    requires i < |items| && InBounds(items, |s.ways|)
    ensures !r.Crash? ==> |r.state.ways| == |s.ways|
  {
    var j := items[i].index;
    var way := s.ways[j];
    var original := items[i].original;
    if i < start then
      Next(s.(skipped := s.skipped + if IsAlreadyProcessed(way) then 1 else 0))
    else if Interrupted(flags, i) || LimitReached(s) then
      Halt(s.(cursor := i), Interrupted(flags, i))
    else if IsAlreadyProcessed(way) then
      Next(s.(skipped := s.skipped + 1, cursor := i + 1))
    else
      var proposal := translate(original);
      var s1 := s.(reviewed := s.reviewed + 1, cursor := i + 1);
      if !Usable(proposal, original) then
        Next(s1.(errors := s.errors + 1))
      else
        match Prompt(s.commands, proposal.value)
        case None => Crash(s.cursor)
        case Some((d, rest)) =>
          var s2 := s1.(commands := rest);
          match d
          case Approve(name) =>
            Next(s2.(ways := s.ways[j := ApplyTranslation(way, name, original)], processed := s.processed + 1))
          case Reject => Next(s2)
          case QuitReview => Halt(s2, true)
          case LiftLimit => Next(s2.(limit := None))
  }

  /** How a review pass ends: normally, with ways, counters and persisted cursor, or by an exception. */
  datatype ReviewResult = Finished(ways: seq<Way>, tally: Tally, cursor: nat) | Aborted(cursor: nat)

  /**
   * The result once the loop is left; `removeProgress` says whether the
   * progress file is deleted, which makes the next run start from 0.
   */
  function Finish(s: State, removeProgress: bool): ReviewResult
  {
    Finished(s.ways, Tally(s.reviewed + s.skipped, s.processed, s.errors, s.skipped),
             if removeProgress then 0 else s.cursor)
  }

  /**
   * The review loop from street `i` on. After the loop the progress file is
   * removed unless the loop was interrupted, when the last index visited is
   * the last index of the list (add_kyrgyz_names.py:214-219). Running to the
   * end, the flag consulted is the one after the last iteration. With an
   * empty list no index was visited: when the flag is clear the test reads the
   * unbound loop variable and the pass fails, and when it is set the test
   * stops before reading it and the pass returns normally.
   */
  function ReviewLoop(s: State, items: seq<Street>, i: nat, start: nat,
                      translate: Translator, flags: seq<bool>): (r: ReviewResult)
    requires i <= |items| && InBounds(items, |s.ways|)
    ensures r.Finished? ==> |r.ways| == |s.ways| && r.tally.processed >= s.processed
    decreases |items| - i
  {
    if i == |items| then
      if |items| == 0 && !Interrupted(flags, 0) then Aborted(s.cursor)
      else Finish(s, !Interrupted(flags, |items|))
    else
      match ReviewStep(s, items, i, start, translate, flags)
      case Next(s') => ReviewLoop(s', items, i + 1, start, translate, flags)
      case Halt(s', interrupted) => Finish(s', !interrupted && i == |items| - 1)
      case Crash(c) => Aborted(c)
  }

  /** The state a review pass starts from. */
  function Initial(doc: seq<Way>, commands: seq<Command>, start: nat, limit: nat): State
  {
    State(doc, 0, 0, 0, 0, Some(limit), start, commands)
  }

  /**
   * A review pass over the document, resuming at the persisted cursor `start`
   * and requesting at most `limit` translations unless lifted
   * (add_kyrgyz_names.py:125-128, 135-219).
   */
  function ReviewPass(doc: seq<Way>, translate: Translator, flags: seq<bool>,
                      commands: seq<Command>, start: nat, limit: nat): ReviewResult
  {
    ReviewLoop(Initial(doc, commands, start, limit), StreetsOf(doc), 0, start, translate, flags)
  }

  /**
   * The loop's bookkeeping before iteration `i`: every applied or failed
   * translation was requested, each iteration so far counted at most once,
   * and the persisted cursor is the start until the loop passes it, then the
   * current iteration.
   */
  predicate Sane(s: State, i: nat, start: nat)
  {
    && s.processed + s.errors <= s.reviewed
    && s.reviewed + s.skipped <= i
    && s.cursor == if i <= start then start else i
  }

  /**
   * Counters and persisted cursor at the end of the review loop. A
   * finished pass reports at least as many visited streets as it counted and
   * no more than the list holds, and persists either a removed progress file,
   * the start itself, or a position after the start within the list. A pass ended by
   * the input running out leaves the cursor at the start or at a street not
   * yet decided.
   */
  lemma {:induction false} ReviewLoopBounds(s: State, items: seq<Street>, i: nat, start: nat,
                                            translate: Translator, flags: seq<bool>)
    requires i <= |items| && InBounds(items, |s.ways|) && Sane(s, i, start)
    ensures var r := ReviewLoop(s, items, i, start, translate, flags);
      && (r.Finished? ==>
            && r.tally.processed + r.tally.errors + r.tally.skipped <= r.tally.total <= |items|
            && (r.cursor == 0 || r.cursor == start || start < r.cursor <= |items|))
      && (r.Aborted? ==> r.cursor == start || start < r.cursor < |items|)
    decreases |items| - i
  {
    if i < |items| {
      match ReviewStep(s, items, i, start, translate, flags)
      case Next(s') =>
        assert Sane(s', i + 1, start);
        ReviewLoopBounds(s', items, i + 1, start, translate, flags);
      case Halt(s', interrupted) =>
      case Crash(c) =>
    }
  }

  /** No command in the list lifts the limit. */
  predicate NoUnlimited(commands: seq<Command>)
  {
    forall j :: 0 <= j < |commands| ==> commands[j] != Unlimited
  }

  /** Without a `c` command a prompt never lifts the limit, and none is left over. */
  lemma PromptKeepsLimit(commands: seq<Command>, proposal: string)
    requires NoUnlimited(commands)
    ensures var r := Prompt(commands, proposal);
            r.Some? ==> r.value.0 != LiftLimit && NoUnlimited(r.value.1)
  {
    PromptSettlesAtFirstValid(commands, proposal);
  }

  /**
   * Without a `c` command the review loop requests no more translations than
   * the limit allows: it checks the limit before every request
   * (add_kyrgyz_names.py:151, 161).
   */
  lemma {:induction false} ReviewLoopLimit(s: State, items: seq<Street>, i: nat, start: nat,
                                           translate: Translator, flags: seq<bool>)
    requires i <= |items| && InBounds(items, |s.ways|)
    requires s.limit.Some? && s.reviewed <= s.limit.value && NoUnlimited(s.commands)
    ensures var r := ReviewLoop(s, items, i, start, translate, flags);
            r.Finished? ==> r.tally.total <= s.limit.value + r.tally.skipped
    decreases |items| - i
  {
    if i < |items| {
      match ReviewStep(s, items, i, start, translate, flags)
      case Next(s') =>
        if translate(items[i].original).Some? {
          PromptKeepsLimit(s.commands, translate(items[i].original).value);
        }
        ReviewLoopLimit(s', items, i + 1, start, translate, flags);
      case Halt(s', interrupted) =>
      case Crash(c) =>
    }
  }

  /**
   * The tags a review can leave on a way: the tags it had, or, when the way
   * was not yet processed and the service proposed a usable translation, the
   * three-tag upsert with some non-empty approved name (the proposal or an
   * edit).
   */
  ghost predicate Revised(before: Way, after: Way, original: string, translate: Translator)
  {
    || after == before
    || (&& !IsAlreadyProcessed(before)
        && Usable(translate(original), original)
        && exists t :: t != "" && after == ApplyTranslation(before, t, original))
  }

  /**
   * The review loop from iteration `i` on touches each listed way at most
   * once: streets before the start keep their tags, the others end Revised,
   * and unlisted ways keep their tags. In particular a failed translation adds
   * no tag at all.
   */
  lemma ReviewLoopPointwise(s: State, items: seq<Street>, i: nat, start: nat,
                            translate: Translator, flags: seq<bool>)
    requires i <= |items| && InBounds(items, |s.ways|) && Increasing(items)
    ensures var r := ReviewLoop(s, items, i, start, translate, flags);
      r.Finished? ==>
        && (forall m :: i <= m < |items| ==>
              && (m < start ==> r.ways[items[m].index] == s.ways[items[m].index])
              && Revised(s.ways[items[m].index], r.ways[items[m].index], items[m].original, translate))
        && (forall j :: 0 <= j < |s.ways| && (forall m :: i <= m < |items| ==> items[m].index != j) ==>
              r.ways[j] == s.ways[j])
  {
    var r := ReviewLoop(s, items, i, start, translate, flags);
    forall m | i <= m < |items|
      ensures r.Finished? ==>
        && (m < start ==> r.ways[items[m].index] == s.ways[items[m].index])
        && Revised(s.ways[items[m].index], r.ways[items[m].index], items[m].original, translate)
    {
      ReviewLoopVisits(s, items, i, start, translate, flags, m);
    }
    forall j | 0 <= j < |s.ways| && (forall m :: i <= m < |items| ==> items[m].index != j)
      ensures r.Finished? ==> r.ways[j] == s.ways[j]
    {
      ReviewLoopKeepsUnlisted(s, items, i, start, translate, flags, j);
    }
  }

  /** The review loop from street `i` on leaves a way that no later street lists as it was. */
  lemma {:induction false} ReviewLoopKeepsUnlisted(s: State, items: seq<Street>, i: nat, start: nat,
                                                   translate: Translator, flags: seq<bool>, j: nat)
    requires i <= |items| && InBounds(items, |s.ways|) && j < |s.ways|
    requires forall m :: i <= m < |items| ==> items[m].index != j
    ensures var r := ReviewLoop(s, items, i, start, translate, flags);
            r.Finished? ==> r.ways[j] == s.ways[j]
    decreases |items| - i
  {
    if i < |items| {
      match ReviewStep(s, items, i, start, translate, flags)
      case Next(s') =>
        assert s'.ways[j] == s.ways[j];
        ReviewLoopKeepsUnlisted(s', items, i + 1, start, translate, flags, j);
      case Halt(s', interrupted) =>
        assert s'.ways == s.ways;
      case Crash(c) =>
    }
  }

  /** What the review loop from street `i` on leaves on the way of the `m`-th street. */
  lemma {:induction false} ReviewLoopVisits(s: State, items: seq<Street>, i: nat, start: nat,
                                            translate: Translator, flags: seq<bool>, m: nat)
    requires i <= m < |items| && InBounds(items, |s.ways|)
    requires forall n :: i <= n < |items| && n != m ==> items[n].index != items[m].index
    ensures var r := ReviewLoop(s, items, i, start, translate, flags);
      r.Finished? ==>
        && (m < start ==> r.ways[items[m].index] == s.ways[items[m].index])
        && Revised(s.ways[items[m].index], r.ways[items[m].index], items[m].original, translate)
    decreases |items| - i
  {
    match ReviewStep(s, items, i, start, translate, flags)
    case Next(s') =>
      var j := items[i].index;
      if m == i {
        ReviewLoopKeepsUnlisted(s', items, i + 1, start, translate, flags, j);
        assert Revised(s.ways[j], s'.ways[j], items[i].original, translate);
        assert i < start ==> s'.ways == s.ways;
      } else {
        ReviewLoopVisits(s', items, i + 1, start, translate, flags, m);
        assert s'.ways[items[m].index] == s.ways[items[m].index];
      }
    case Halt(s', interrupted) =>
      assert s'.ways == s.ways;
    case Crash(c) =>
  }

  /**
   * Only approvals change the document: when the loop applies no translation,
   * every way keeps its tags.
   */
  lemma {:induction false} ReviewLoopKeepsWithoutApprovals(s: State, items: seq<Street>, i: nat, start: nat,
                                                           translate: Translator, flags: seq<bool>)
    requires i <= |items| && InBounds(items, |s.ways|)
    ensures var r := ReviewLoop(s, items, i, start, translate, flags);
            r.Finished? && r.tally.processed == s.processed ==> r.ways == s.ways
    decreases |items| - i
  {
    if i < |items| {
      match ReviewStep(s, items, i, start, translate, flags)
      case Next(s') =>
        assert s'.processed == s.processed ==> s'.ways == s.ways;
        ReviewLoopKeepsWithoutApprovals(s', items, i + 1, start, translate, flags);
      case Halt(s', interrupted) =>
        assert s'.ways == s.ways;
      case Crash(c) =>
    }
  }

  /**
   * Counters and cursor of a review pass: the reported total counts at most
   * the streets of the document, the three counters fit in it, and the
   * progress file ends removed or holding a position no earlier than where
   * the pass resumed.
   */
  lemma ReviewPassBounds(doc: seq<Way>, translate: Translator, flags: seq<bool>,
                         commands: seq<Command>, start: nat, limit: nat)
    ensures var r := ReviewPass(doc, translate, flags, commands, start, limit);
      && (r.Finished? ==>
            && |r.ways| == |doc|
            && r.tally.processed + r.tally.errors + r.tally.skipped <= r.tally.total <= |StreetsOf(doc)|
            && (r.cursor == 0 || r.cursor == start || start < r.cursor <= |StreetsOf(doc)|))
      && (r.Aborted? ==> r.cursor == start || start < r.cursor < |StreetsOf(doc)|)
  {
    ReviewLoopBounds(Initial(doc, commands, start, limit), StreetsOf(doc), 0, start, translate, flags);
  }

  /** How many of the streets in `[lo, hi)` have an already processed way. */
  function ProcessedBetween(ways: seq<Way>, items: seq<Street>, lo: nat, hi: nat): nat
    requires lo <= hi <= |items| && InBounds(items, |ways|)
    decreases hi - lo
  {
    if lo == hi then 0
    else (if IsAlreadyProcessed(ways[items[lo].index]) then 1 else 0) + ProcessedBetween(ways, items, lo + 1, hi)
  }

  /**
   * The streets before the resume point are only counted: the loop reaches
   * the resume point (or the end of a shorter list) with the same ways, limit,
   * cursor and commands, and the already processed ones among them added to
   * `skipped` (add_kyrgyz_names.py:145-149).
   */
  lemma ReviewLoopPrefix(s: State, items: seq<Street>, i: nat, start: nat,
                         translate: Translator, flags: seq<bool>)
    requires i <= start && i <= |items| && InBounds(items, |s.ways|)
    ensures var e := if start < |items| then start else |items|;
      ReviewLoop(s, items, i, start, translate, flags)
      == ReviewLoop(s.(skipped := s.skipped + ProcessedBetween(s.ways, items, i, e)), items, e, start, translate, flags)
  {
    var e := if start < |items| then start else |items|;
    ReviewLoopPrefixTo(s, s.(skipped := s.skipped + ProcessedBetween(s.ways, items, i, e)), items, i, start, translate, flags);
  }

  /** The induction behind `ReviewLoopPrefix`, with the state reached at the resume point fixed as `t`. */
  lemma {:induction false} ReviewLoopPrefixTo(s: State, t: State, items: seq<Street>, i: nat, start: nat,
                                              translate: Translator, flags: seq<bool>)
    requires i <= start && i <= |items| && InBounds(items, |s.ways|)
    requires t == s.(skipped := s.skipped + ProcessedBetween(s.ways, items, i, if start < |items| then start else |items|))
    ensures ReviewLoop(s, items, i, start, translate, flags)
         == ReviewLoop(t, items, if start < |items| then start else |items|, start, translate, flags)
    decreases |items| - i
  {
    var e := if start < |items| then start else |items|;
    if i < e {
      var s' := s.(skipped := s.skipped + if IsAlreadyProcessed(s.ways[items[i].index]) then 1 else 0);
      assert t == s'.(skipped := s'.skipped + ProcessedBetween(s'.ways, items, i + 1, e));
      ReviewLoopBeforeStart(s, items, i, start, translate, flags);
      ReviewLoopPrefixTo(s', t, items, i + 1, start, translate, flags);
    } else {
      assert t == s;
    }
  }

  /** A street before the resume point is counted and the loop moves on to the next one. */
  lemma ReviewLoopBeforeStart(s: State, items: seq<Street>, i: nat, start: nat,
                              translate: Translator, flags: seq<bool>)
    requires i < start && i < |items| && InBounds(items, |s.ways|)
    ensures var s' := s.(skipped := s.skipped + if IsAlreadyProcessed(s.ways[items[i].index]) then 1 else 0);
      ReviewLoop(s, items, i, start, translate, flags) == ReviewLoop(s', items, i + 1, start, translate, flags)
  {
  }

  /**
   * From the resume point on, every street the loop gets through moves the
   * persisted cursor one street on: the cursor a finished loop leaves is the
   * one it had plus the number of streets it settled (skipped as processed,
   * failed, or decided at the prompt), unless the progress file is removed,
   * which happens only when that position is at or next to the end of the
   * list (add_kyrgyz_names.py:151-159, 209, 214-216).
   */
  lemma {:induction false} ReviewLoopCursor(s: State, items: seq<Street>, i: nat, start: nat,
                                            translate: Translator, flags: seq<bool>)
    requires i <= |items| && InBounds(items, |s.ways|)
    requires start <= i || i == |items|
    requires s.cursor == if i < start then start else i
    ensures var r := ReviewLoop(s, items, i, start, translate, flags);
      var done := s.reviewed + s.skipped;
      r.Finished? ==>
        && done <= r.tally.total <= done + (|items| - i)
        && var n := s.cursor + (r.tally.total - done);
           r.cursor == n || (r.cursor == 0 && |items| <= n + 1)
    decreases |items| - i
  {
    if i < |items| {
      ReviewStepAdvances(s, items, i, start, translate, flags);
      match ReviewStep(s, items, i, start, translate, flags)
      case Next(s') =>
        ReviewLoopCursor(s', items, i + 1, start, translate, flags);
      case Halt(s', interrupted) =>
      case Crash(c) =>
    }
  }

  /**
   * An iteration from the resume point on either settles street `i`, counting
   * it once and persisting the street after it, or stops before it with the
   * counters and the cursor `i` as they were; a quit settles the street and
   * stops.
   */
  lemma ReviewStepAdvances(s: State, items: seq<Street>, i: nat, start: nat,
                           translate: Translator, flags: seq<bool>)
    requires i < |items| && InBounds(items, |s.ways|) && start <= i
    ensures match ReviewStep(s, items, i, start, translate, flags)
      case Next(s') => s'.cursor == i + 1 && s'.reviewed + s'.skipped == s.reviewed + s.skipped + 1
      case Halt(s', interrupted) =>
        || (s'.cursor == i && s'.reviewed + s'.skipped == s.reviewed + s.skipped)
        || (s'.cursor == i + 1 && s'.reviewed + s'.skipped == s.reviewed + s.skipped + 1 && interrupted)
      case Crash(c) => c == s.cursor
  {
  }

  /**
   * The cursor a finished review pass persists is the resume point plus the
   * number of streets from the resume point on that the pass settled, which
   * is its reported total less the already processed streets before the
   * resume point; the progress file is removed instead only when that
   * position is at or next to the end of the list.
   */
  lemma ReviewPassCursor(doc: seq<Way>, translate: Translator, flags: seq<bool>,
                         commands: seq<Command>, start: nat, limit: nat)
    ensures var r := ReviewPass(doc, translate, flags, commands, start, limit);
      var items := StreetsOf(doc);
      var before := ProcessedBetween(doc, items, 0, if start < |items| then start else |items|);
      r.Finished? ==>
        && before <= r.tally.total
        && var n := start + (r.tally.total - before);
           && n <= (if start < |items| then |items| else start)
           && (r.cursor == n || (r.cursor == 0 && |items| <= n + 1))
  {
    var items := StreetsOf(doc);
    var e := if start < |items| then start else |items|;
    var s0 := Initial(doc, commands, start, limit);
    var s1 := s0.(skipped := ProcessedBetween(doc, items, 0, e));
    assert ReviewPass(doc, translate, flags, commands, start, limit) == ReviewLoop(s1, items, e, start, translate, flags) by {
      ReviewLoopPrefix(s0, items, 0, start, translate, flags);
    }
    ReviewLoopCursor(s1, items, e, start, translate, flags);
  }

  /**
   * A loop that reaches a street at or after the resume point with the
   * interruption flag set or the limit reached stops there without touching
   * a way, and persists that street, so the next run asks about it first;
   * only a limit stop at the last street removes the progress file instead
   * (add_kyrgyz_names.py:151-153, 214-216).
   */
  lemma ReviewLoopStopsAt(s: State, items: seq<Street>, i: nat, start: nat,
                          translate: Translator, flags: seq<bool>)
    requires i < |items| && InBounds(items, |s.ways|) && start <= i
    requires Interrupted(flags, i) || LimitReached(s)
    ensures var r := ReviewLoop(s, items, i, start, translate, flags);
      && r.Finished?
      && r.ways == s.ways
      && r.tally.total == s.reviewed + s.skipped
      && r.cursor == if i == |items| - 1 && !Interrupted(flags, i) then 0 else i
  {
  }

  /**
   * A loop whose prompt at street `i` is settled by `q` stops without touching
   * the way but persists the street after it, so the next run does not ask
   * about street `i` again (add_kyrgyz_names.py:194-212).
   */
  lemma ReviewLoopQuitsAt(s: State, items: seq<Street>, i: nat, start: nat,
                          translate: Translator, flags: seq<bool>)
    requires i < |items| && InBounds(items, |s.ways|) && Requests(s, items, i, start, flags)
    requires Usable(translate(items[i].original), items[i].original)
    requires Prompt(s.commands, translate(items[i].original).value).Some?
    requires Prompt(s.commands, translate(items[i].original).value).value.0 == QuitReview
    ensures var r := ReviewLoop(s, items, i, start, translate, flags);
      && r.Finished?
      && r.ways == s.ways
      && r.tally.total == s.reviewed + s.skipped + 1
      && r.tally.processed == s.processed
      && r.cursor == i + 1
  {
  }

  /** Without a `c` command a review pass requests at most `limit` translations. */
  lemma ReviewPassLimit(doc: seq<Way>, translate: Translator, flags: seq<bool>,
                        commands: seq<Command>, start: nat, limit: nat)
    requires NoUnlimited(commands)
    ensures var r := ReviewPass(doc, translate, flags, commands, start, limit);
            r.Finished? ==> r.tally.total <= limit + r.tally.skipped
  {
    ReviewLoopLimit(Initial(doc, commands, start, limit), StreetsOf(doc), 0, start, translate, flags);
  }

  /**
   * What a review pass may do to the way of the `m`-th street: nothing before
   * the resume point, and at most one approved translation from it on.
   */
  lemma ReviewPassVisits(doc: seq<Way>, translate: Translator, flags: seq<bool>,
                         commands: seq<Command>, start: nat, limit: nat, m: nat)
    requires m < |StreetsOf(doc)|
    ensures var r := ReviewPass(doc, translate, flags, commands, start, limit);
            var st := StreetsOf(doc)[m];
            r.Finished? ==>
              && (m < start ==> r.ways[st.index] == doc[st.index])
              && Revised(doc[st.index], r.ways[st.index], st.original, translate)
  {
    ReviewLoopPointwise(Initial(doc, commands, start, limit), StreetsOf(doc), 0, start, translate, flags);
  }

  /** A review pass leaves every way without a `name` tag as it was. */
  lemma ReviewPassKeepsUnnamed(doc: seq<Way>, translate: Translator, flags: seq<bool>,
                               commands: seq<Command>, start: nat, limit: nat, j: nat)
    requires j < |doc| && !Named(doc[j])
    ensures var r := ReviewPass(doc, translate, flags, commands, start, limit);
            r.Finished? ==> r.ways[j] == doc[j]
  {
    var items := StreetsOf(doc);
    ReviewLoopPointwise(Initial(doc, commands, start, limit), items, 0, start, translate, flags);
    forall m | 0 <= m < |items|
      ensures items[m].index != j
    {
      assert Lookup(doc[items[m].index], Name).Some?;
    }
  }

  /** A review pass never gives a key of a way a second tag. */
  lemma ReviewPassKeepsUniqueKeys(doc: seq<Way>, translate: Translator, flags: seq<bool>,
                                  commands: seq<Command>, start: nat, limit: nat, j: nat)
    requires j < |doc| && UniqueKeys(doc[j])
    ensures var r := ReviewPass(doc, translate, flags, commands, start, limit);
            r.Finished? ==> UniqueKeys(r.ways[j])
  {
    var r := ReviewPass(doc, translate, flags, commands, start, limit);
    var items := StreetsOf(doc);
    if r.Finished? {
      if Named(doc[j]) {
        var m :| 0 <= m < |items| && items[m].index == j;
        ReviewPassVisits(doc, translate, flags, commands, start, limit, m);
        if r.ways[j] != doc[j] {
          var t :| t != "" && r.ways[j] == ApplyTranslation(doc[j], t, items[m].original);
          ApplyTranslationKeepsUnique(doc[j], t, items[m].original);
        }
      } else {
        ReviewPassKeepsUnnamed(doc, translate, flags, commands, start, limit, j);
      }
    }
  }

  /**
   * When the driver writes nothing after a review pass, the pass changed no
   * way; a pass that ends by an exception writes nothing either.
   */
  lemma ReviewDiscardKeepsDocument(doc: seq<Way>, translate: Translator, flags: seq<bool>,
                                   commands: seq<Command>, start: nat, limit: nat)
    ensures var r := ReviewPass(doc, translate, flags, commands, start, limit);
            r.Finished? && !WritesOutput(r.tally) ==> r.ways == doc
  {
    ReviewLoopKeepsWithoutApprovals(Initial(doc, commands, start, limit), StreetsOf(doc), 0, start, translate, flags);
  }

  /**
   * Iteration `i` will request a translation: it is at or past the resume
   * point, no interruption or limit stops it, and its way is not processed.
   */
  predicate Requests(s: State, items: seq<Street>, i: nat, start: nat, flags: seq<bool>)
    requires i < |items| && InBounds(items, |s.ways|)
  {
    start <= i && !Interrupted(flags, i) && !LimitReached(s) && !IsAlreadyProcessed(s.ways[items[i].index])
  }

  /**
   * The iterations that request nothing (add_kyrgyz_names.py:145-159) read no
   * command and change no way, counter or limit, except that a way already
   * processed counts as skipped. The loop stops exactly at a street at or
   * after the resume point that sees the interruption flag or a reached limit,
   * persisting that street; before the resume point the persisted cursor
   * stays, and a skipped street from the resume point on is persisted as done.
   */
  lemma ReviewStepControl(s: State, items: seq<Street>, i: nat, start: nat,
                          translate: Translator, flags: seq<bool>)
    requires i < |items| && InBounds(items, |s.ways|) && !Requests(s, items, i, start, flags)
    ensures var r := ReviewStep(s, items, i, start, translate, flags);
      var processed := IsAlreadyProcessed(s.ways[items[i].index]);
      && !r.Crash?
      && r.state.ways == s.ways && r.state.commands == s.commands && r.state.limit == s.limit
      && r.state.reviewed == s.reviewed && r.state.processed == s.processed && r.state.errors == s.errors
      && (r.Halt? <==> start <= i && (Interrupted(flags, i) || LimitReached(s)))
      && (r.Halt? ==> r.state.cursor == i && r.state.skipped == s.skipped && r.interrupted == Interrupted(flags, i))
      && (r.Next? ==> r.state.skipped == s.skipped + (if processed then 1 else 0))
      && (r.Next? ==> r.state.cursor == if i < start then s.cursor else i + 1)
  {
  }

  /**
   * A failed translation in review counts an error, advances the cursor past
   * the street and adds no tag, unlike the batch pass, which records
   * `name:ru` (add_kyrgyz_names.py:205-209).
   */
  lemma ReviewStepFailure(s: State, items: seq<Street>, i: nat, start: nat,
                          translate: Translator, flags: seq<bool>)
    requires i < |items| && InBounds(items, |s.ways|) && Requests(s, items, i, start, flags)
    requires !Usable(translate(items[i].original), items[i].original)
    ensures var r := ReviewStep(s, items, i, start, translate, flags);
      && r.Next?
      && r.state.ways == s.ways
      && r.state.errors == s.errors + 1 && r.state.processed == s.processed
      && r.state.reviewed == s.reviewed + 1
      && r.state.cursor == i + 1 && r.state.commands == s.commands
  {
  }

  /**
   * The effect of the first command typed at the prompt of iteration `i`
   * (add_kyrgyz_names.py:173-209). `y` and a non-empty `e` set `name:ky` and
   * `name` to the approved name and `name:ru` to the original, leave the way
   * processed and count it; `n` and an empty `e` change nothing; `q` ends the
   * loop as interrupted with the cursor past the street, not at it; `c` lifts
   * the limit without applying the proposal. Every command is consumed and
   * every one leaves the cursor past the street. An edit whose text never
   * arrives ends the pass by an exception with the cursor persisted before
   * the street (add_kyrgyz_names.py:184).
   */
  lemma ReviewStepCommand(s: State, items: seq<Street>, i: nat, start: nat,
                          translate: Translator, flags: seq<bool>)
    requires i < |items| && InBounds(items, |s.ways|) && Requests(s, items, i, start, flags)
    requires Usable(translate(items[i].original), items[i].original)
    requires |s.commands| > 0 && s.commands[0] != Invalid
    ensures var r := ReviewStep(s, items, i, start, translate, flags);
      var j := items[i].index;
      var original := items[i].original;
      var approved := match s.commands[0]
        case Yes => Some(translate(original).value)
        case Edit(t) => if t == Some("") then None else t
        case _ => None;
      && (r.Crash? <==> s.commands[0] == Edit(None))
      && (r.Crash? ==> r.cursor == s.cursor)
      && (!r.Crash? ==>
            && r.state.commands == s.commands[1..]
            && r.state.cursor == i + 1
            && r.state.reviewed == s.reviewed + 1
            && (r.Halt? <==> s.commands[0] == Quit)
            && (r.Halt? ==> r.interrupted)
            && (r.state.limit.None? <==> s.commands[0] == Unlimited || s.limit.None?)
            && (approved.None? ==> r.state.ways == s.ways && r.state.processed == s.processed)
            && (approved.Some? ==>
                  && approved.value != ""
                  && r.state.processed == s.processed + 1
                  && Lookup(r.state.ways[j], NameKy) == approved
                  && Lookup(r.state.ways[j], NameRu) == Some(original)
                  && Lookup(r.state.ways[j], Name) == approved
                  && IsAlreadyProcessed(r.state.ways[j])
                  && (forall k :: 0 <= k < |s.ways| && k != j ==> r.state.ways[k] == s.ways[k])))
  {
    var j := items[i].index;
    var original := items[i].original;
    var p := translate(original).value;
    match s.commands[0]
    case Yes =>
      ApplyTranslationEffect(s.ways[j], p, original, Name);
    case Edit(t) =>
      if t.Some? && t.value != "" {
        ApplyTranslationEffect(s.ways[j], t.value, original, Name);
      }
    case _ =>
  }

  /**
   * With no named way the loop body never runs; unless the interruption flag
   * is already set, the final check reads an unbound loop variable and the
   * pass ends by an exception, so nothing is written
   * (add_kyrgyz_names.py:144, 214).
   */
  lemma NoStreetsAborts(doc: seq<Way>, translate: Translator, flags: seq<bool>,
                        commands: seq<Command>, start: nat, limit: nat)
    requires forall j :: 0 <= j < |doc| ==> !Named(doc[j])
    requires !Interrupted(flags, 0)
    ensures ReviewPass(doc, translate, flags, commands, start, limit) == Aborted(start)
  {
  }

  /**
   * With no named way and the interruption flag already set (a Ctrl+C while
   * the document was loading), the final check stops at the flag without
   * reading the loop variable: the pass returns zero counters, the document
   * as it was, and the progress file untouched (add_kyrgyz_names.py:214, 219).
   */
  lemma NoStreetsInterruptedReturns(doc: seq<Way>, translate: Translator, flags: seq<bool>,
                                    commands: seq<Command>, start: nat, limit: nat)
    requires forall j :: 0 <= j < |doc| ==> !Named(doc[j])
    requires Interrupted(flags, 0)
    ensures ReviewPass(doc, translate, flags, commands, start, limit) == Finished(doc, Tally(0, 0, 0, 0), start)
  {
  }

  /**
   * Quitting at the only street persists the position after it, so the next
   * run does not ask about that street again although it was left untouched
   * (add_kyrgyz_names.py:194-209).
   */
  lemma QuitSkipsStreet(translate: Translator)
    requires translate("Lenina") == Some("Lenin")
    ensures var doc := [[Tag(Name, "Lenina")]];
            ReviewPass(doc, translate, [], [Quit], 0, 10) == Finished(doc, Tally(1, 0, 0, 0), 1)
  {
    var doc := [[Tag(Name, "Lenina")]];
    assert Lookup(doc[0], Name) == Some("Lenina");
    assert !HasKey(doc[0], NameRu) by { assert !HasKey(doc[0][1..], NameRu); }
    var items := StreetsOf(doc);
    assert items == [Street(0, "Lenina")];
    var s0 := Initial(doc, [Quit], 0, 10);
    assert ReviewStep(s0, items, 0, 0, translate, []) == Halt(s0.(reviewed := 1, cursor := 1, commands := []), true);
  }

  /** The streets of a two-way example document. */
  lemma TwoStreets()
    ensures var doc := [[Tag(Name, "A")], [Tag(Name, "B")]];
            && StreetsOf(doc) == [Street(0, "A"), Street(1, "B")]
            && !IsAlreadyProcessed(doc[0]) && !IsAlreadyProcessed(doc[1])
  {
    var doc := [[Tag(Name, "A")], [Tag(Name, "B")]];
    assert Lookup(doc[0], Name) == Some("A");
    assert Lookup(doc[1], Name) == Some("B");
    assert !HasKey(doc[0], NameRu) by { assert !HasKey(doc[0][1..], NameRu); }
    assert !HasKey(doc[1], NameRu) by { assert !HasKey(doc[1][1..], NameRu); }
    assert StreetsUpTo(doc, 1) == [Street(0, "A")];
  }

  /**
   * When the limit stops the loop at the last street, that street is never
   * reviewed but the progress file is removed all the same, so the next run
   * starts over from the first street (add_kyrgyz_names.py:151-153, 214-216).
   */
  lemma LimitAtLastStreetRemovesProgress(translate: Translator)
    requires translate("A") == Some("Ak")
    ensures var doc := [[Tag(Name, "A")], [Tag(Name, "B")]];
            var r := ReviewPass(doc, translate, [], [Yes], 0, 1);
            && r.Finished?
            && r.tally == Tally(1, 1, 0, 0)
            && r.cursor == 0
            && r.ways[1] == doc[1]
            && !IsAlreadyProcessed(r.ways[1])
  {
    var doc := [[Tag(Name, "A")], [Tag(Name, "B")]];
    TwoStreets();
    var items := StreetsOf(doc);
    var s0 := Initial(doc, [Yes], 0, 1);
    var s1 := s0.(ways := doc[0 := ApplyTranslation(doc[0], "Ak", "A")], processed := 1,
                  reviewed := 1, cursor := 1, commands := []);
    assert ReviewStep(s0, items, 0, 0, translate, []) == Next(s1);
    assert ReviewStep(s1, items, 1, 0, translate, []) == Halt(s1, false);
    assert ReviewLoop(s1, items, 1, 0, translate, []) == Finish(s1, true);
    assert ReviewLoop(s0, items, 0, 0, translate, []) == Finish(s1, true);
  }

  /**
   * Running out of input at a prompt, or right after `e` at the line asking
   * for the edited name, ends the pass by an exception, keeping the cursor
   * persisted before it (add_kyrgyz_names.py:171, 184).
   */
  lemma EndOfInputAborts(translate: Translator)
    requires translate("A") == Some("B")
    ensures ReviewPass([[Tag(Name, "A")]], translate, [], [Invalid], 0, 10) == Aborted(0)
    ensures ReviewPass([[Tag(Name, "A")]], translate, [], [Edit(None)], 0, 10) == Aborted(0)
  {
    var doc := [[Tag(Name, "A")]];
    assert Lookup(doc[0], Name) == Some("A");
    assert !HasKey(doc[0], NameRu) by { assert !HasKey(doc[0][1..], NameRu); }
    var items := StreetsOf(doc);
    assert items == [Street(0, "A")];
    var s0 := Initial(doc, [Invalid], 0, 10);
    assert Prompt([Invalid], "B") == None by { assert Prompt([Invalid][1..], "B") == None; }
    assert ReviewStep(s0, items, 0, 0, translate, []) == Crash(0);
    var s1 := Initial(doc, [Edit(None)], 0, 10);
    assert ReviewStep(s1, items, 0, 0, translate, []) == Crash(0);
  }
}
