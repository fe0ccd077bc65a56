/**
 * The batch pass: every selected street in document order, skipping ways that
 * are already processed, translating the rest, and stopping early when an
 * interruption is seen at the top of an iteration.
 */
module Batch {
  import opened Wrappers
  import opened Tags
  import opened Translation
  import opened Streets
  import opened Session

  /** What one iteration did with its street. */
  datatype Outcome = Skipped | Translated | Failed

  /** Which branch of the batch loop body a way takes (add_kyrgyz_names.py:227, 238). */
  function Classify(w: Way, original: string, translate: Translator): Outcome
  {
    if IsAlreadyProcessed(w) then Skipped
    else if Usable(translate(original), original) then Translated
    else Failed
  }

  /**
   * One iteration of the batch loop on the way `w` whose name was `original`:
   * an already processed way is left alone; a usable translation is applied
   * with the three-tag upsert; otherwise only `name:ru` is set to the
   * original name.
   */
  function Step(w: Way, original: string, translate: Translator): (r: (Way, Outcome))
    ensures r.1 == Classify(w, original, translate)
    ensures r.1 == Skipped ==> r.0 == w
  {
    if IsAlreadyProcessed(w) then
      (w, Skipped)
    else
      var proposal := translate(original);
      if Usable(proposal, original) then
        (ApplyTranslation(w, proposal.value, original), Translated)
      else
        (SetOrUpdateTag(w, NameRu, original), Failed)
  }

  /**
   * What one batch iteration does to the tags of its way
   * (add_kyrgyz_names.py:227-250). A processed way is skipped untouched. A
   * usable translation ends with `name:ky` and `name` reading the translation,
   * `name:ru` the original, and the way processed. Otherwise `name:ru` reads
   * the original, `name` and `name:ky` are untouched, and the way is processed
   * afterwards only if it already had a `name:ky` tag. No other key changes
   * and no key disappears.
   */
  lemma StepEffect(w: Way, original: string, translate: Translator, k: string)
    ensures var r := Step(w, original, translate);
      && (r.1 == Skipped <==> IsAlreadyProcessed(w))
      && (r.1 == Translated <==> !IsAlreadyProcessed(w) && Usable(translate(original), original))
      && (r.1 == Translated ==>
            && Lookup(r.0, NameKy) == translate(original)
            && Lookup(r.0, NameRu) == Some(original)
            && Lookup(r.0, Name) == translate(original)
            && IsAlreadyProcessed(r.0))
      && (r.1 == Failed ==>
            && Lookup(r.0, NameRu) == Some(original)
            && Lookup(r.0, Name) == Lookup(w, Name)
            && Lookup(r.0, NameKy) == Lookup(w, NameKy)
            && (IsAlreadyProcessed(r.0) <==> HasKey(w, NameKy)))
      && (k != Name && k != NameRu && k != NameKy ==> Lookup(r.0, k) == Lookup(w, k))
      && (HasKey(w, k) ==> HasKey(r.0, k))
  {
    if !IsAlreadyProcessed(w) {
      var proposal := translate(original);
      if Usable(proposal, original) {
        ApplyTranslationEffect(w, proposal.value, original, k);
      } else {
        SetOrUpdateTagLookup(w, NameRu, original, NameKy);
        SetOrUpdateTagLookup(w, NameRu, original, Name);
        SetOrUpdateTagLookup(w, NameRu, original, k);
      }
    }
  }

  /** The counters after one iteration with the given outcome. */
  function Count(t: Tally, o: Outcome): Tally
  {
    match o
    case Skipped => t.(skipped := t.skipped + 1)
    case Translated => t.(processed := t.processed + 1)
    case Failed => t.(errors := t.errors + 1)
  }

  /** The first iteration at or after `k` that sees the interruption flag, or `n` when none does. */
  function StopIndex(flags: seq<bool>, k: nat, n: nat): (r: nat)
    requires k <= n
    ensures k <= r <= n
    ensures forall m :: k <= m < r ==> !Interrupted(flags, m)
    ensures r < n ==> Interrupted(flags, r)
    decreases n - k
  {
    if k == n || Interrupted(flags, k) then k else StopIndex(flags, k + 1, n)
  }

  /**
   * The batch loop from iteration `k` on: the ways as mutated so far and the
   * counters so far (add_kyrgyz_names.py:221-250).
   */
  function Loop(ways: seq<Way>, items: seq<Street>, k: nat, translate: Translator,
                flags: seq<bool>, t: Tally): (r: (seq<Way>, Tally))
    requires k <= |items| && InBounds(items, |ways|)
    ensures |r.0| == |ways|
    ensures r.1.total == t.total
    ensures r.1.processed >= t.processed && r.1.errors >= t.errors && r.1.skipped >= t.skipped
    ensures r.1.processed + r.1.errors + r.1.skipped
         == t.processed + t.errors + t.skipped + (StopIndex(flags, k, |items|) - k)
    decreases |items| - k
  {
    if k == |items| || Interrupted(flags, k) then
      (ways, t)
    else
      var s := items[k];
      var (w, o) := Step(ways[s.index], s.original, translate);
      Loop(ways[s.index := w], items, k + 1, translate, flags, Count(t, o))
  }

  /** The document and counters at the end of a batch pass. */
  datatype BatchResult = BatchResult(ways: seq<Way>, tally: Tally)

  /**
   * A batch pass over the document (add_kyrgyz_names.py:125-128, 221-258).
   * The reported total is the number of named ways; the three counters add up
   * to the number of iterations run, which is the total unless an
   * interruption stopped the loop.
   */
  function Pass(doc: seq<Way>, translate: Translator, flags: seq<bool>): (r: BatchResult)
    ensures |r.ways| == |doc|
    ensures r.tally.total == |NamedIndices(doc, |doc|)|
    ensures r.tally.processed + r.tally.errors + r.tally.skipped == StopIndex(flags, 0, r.tally.total)
    ensures (forall m :: 0 <= m < r.tally.total ==> !Interrupted(flags, m)) ==>
      r.tally.processed + r.tally.errors + r.tally.skipped == r.tally.total
  {
    var items := StreetsOf(doc);
    var (ways, tally) := Loop(doc, items, 0, translate, flags, Tally(|items|, 0, 0, 0));
    BatchResult(ways, tally)
  }

  /**
   * The loop from iteration `k` on touches each listed way at most once:
   * a way visited before the stop ends as one Step made it, a listed way at
   * or after the stop and every unlisted way keep their current tags.
   */
  lemma LoopPointwise(ways: seq<Way>, items: seq<Street>, k: nat,
                      translate: Translator, flags: seq<bool>, t: Tally)
    requires k <= |items| && InBounds(items, |ways|) && Increasing(items)
    ensures forall m :: k <= m < |items| ==>
      Loop(ways, items, k, translate, flags, t).0[items[m].index]
      == if m < StopIndex(flags, k, |items|)
         then Step(ways[items[m].index], items[m].original, translate).0
         else ways[items[m].index]
    ensures forall j :: 0 <= j < |ways| && (forall m :: k <= m < |items| ==> items[m].index != j) ==>
      Loop(ways, items, k, translate, flags, t).0[j] == ways[j]
  {
    forall m | k <= m < |items|
      ensures Loop(ways, items, k, translate, flags, t).0[items[m].index]
           == if m < StopIndex(flags, k, |items|)
              then Step(ways[items[m].index], items[m].original, translate).0
              else ways[items[m].index]
    {
      LoopVisits(ways, items, k, translate, flags, t, m);
    }
    forall j | 0 <= j < |ways| && (forall m :: k <= m < |items| ==> items[m].index != j)
      ensures Loop(ways, items, k, translate, flags, t).0[j] == ways[j]
    {
      LoopKeepsUnlisted(ways, items, k, translate, flags, t, j);
    }
  }

  /** The loop from iteration `k` on leaves a way that no later street lists as it was. */
  lemma {:induction false} LoopKeepsUnlisted(ways: seq<Way>, items: seq<Street>, k: nat,
                                             translate: Translator, flags: seq<bool>, t: Tally, j: nat)
    requires k <= |items| && InBounds(items, |ways|) && j < |ways|
    requires forall m :: k <= m < |items| ==> items[m].index != j
    ensures Loop(ways, items, k, translate, flags, t).0[j] == ways[j]
    decreases |items| - k
  {
    if k < |items| && !Interrupted(flags, k) {
      var s := items[k];
      var r := Step(ways[s.index], s.original, translate);
      var ways' := ways[s.index := r.0];
      LoopUnfold(ways, items, k, translate, flags, t);
      LoopKeepsUnlisted(ways', items, k + 1, translate, flags, Count(t, r.1), j);
      assert ways'[j] == ways[j];
    } else {
      assert Loop(ways, items, k, translate, flags, t).0 == ways;
    }
  }

  /** The way of the `m`-th street after the loop from iteration `k` on. */
  lemma {:induction false} LoopVisits(ways: seq<Way>, items: seq<Street>, k: nat,
                                      translate: Translator, flags: seq<bool>, t: Tally, m: nat)
    requires k <= m < |items| && InBounds(items, |ways|)
    requires forall n :: k <= n < |items| && n != m ==> items[n].index != items[m].index
    ensures Loop(ways, items, k, translate, flags, t).0[items[m].index]
         == if m < StopIndex(flags, k, |items|)
            then Step(ways[items[m].index], items[m].original, translate).0
            else ways[items[m].index]
    decreases |items| - k, 1
  {
    if Interrupted(flags, k) {
      assert Loop(ways, items, k, translate, flags, t).0 == ways;
    } else if m == k {
      LoopVisitsHere(ways, items, k, translate, flags, t);
    } else {
      LoopVisitsLater(ways, items, k, translate, flags, t, m);
    }
  }

  /** An iteration that runs leaves its way as one Step made it, since no later street lists that way. */
  lemma LoopVisitsHere(ways: seq<Way>, items: seq<Street>, k: nat,
                       translate: Translator, flags: seq<bool>, t: Tally)
    requires k < |items| && InBounds(items, |ways|) && !Interrupted(flags, k)
    requires forall n :: k < n < |items| ==> items[n].index != items[k].index
    ensures Loop(ways, items, k, translate, flags, t).0[items[k].index]
         == Step(ways[items[k].index], items[k].original, translate).0
  {
    var s := items[k];
    var r := Step(ways[s.index], s.original, translate);
    LoopUnfold(ways, items, k, translate, flags, t);
    LoopKeepsUnlisted(ways[s.index := r.0], items, k + 1, translate, flags, Count(t, r.1), s.index);
  }

  /** A street after iteration `k` is reached from `k + 1` with its way as it was. */
  lemma {:induction false} LoopVisitsLater(ways: seq<Way>, items: seq<Street>, k: nat,
                                           translate: Translator, flags: seq<bool>, t: Tally, m: nat)
    requires k < m < |items| && InBounds(items, |ways|) && !Interrupted(flags, k)
    requires forall n :: k <= n < |items| && n != m ==> items[n].index != items[m].index
    ensures Loop(ways, items, k, translate, flags, t).0[items[m].index]
         == if m < StopIndex(flags, k, |items|)
            then Step(ways[items[m].index], items[m].original, translate).0
            else ways[items[m].index]
    decreases |items| - k, 0
  {
    var s := items[k];
    var r := Step(ways[s.index], s.original, translate);
    var ways' := ways[s.index := r.0];
    LoopUnfold(ways, items, k, translate, flags, t);
    LoopVisits(ways', items, k + 1, translate, flags, Count(t, r.1), m);
    assert ways'[items[m].index] == ways[items[m].index];
    assert StopIndex(flags, k, |items|) == StopIndex(flags, k + 1, |items|);
  }

  /**
   * The batch pass changes each named way on its own: the way of the `m`-th
   * street ends as one Step on its original tags made it when the loop got
   * that far, and keeps its tags otherwise.
   */
  lemma PassVisits(doc: seq<Way>, translate: Translator, flags: seq<bool>, m: nat)
    requires m < |StreetsOf(doc)|
    ensures var s := StreetsOf(doc)[m];
            Pass(doc, translate, flags).ways[s.index]
            == if m < StopIndex(flags, 0, |StreetsOf(doc)|)
               then Step(doc[s.index], s.original, translate).0
               else doc[s.index]
  {
    var items := StreetsOf(doc);
    LoopPointwise(doc, items, 0, translate, flags, Tally(|items|, 0, 0, 0));
  }

  /** The batch pass leaves every way without a `name` tag as it was. */
  lemma PassKeepsUnnamed(doc: seq<Way>, translate: Translator, flags: seq<bool>, j: nat)
    requires j < |doc| && !Named(doc[j])
    ensures Pass(doc, translate, flags).ways[j] == doc[j]
  {
    var items := StreetsOf(doc);
    LoopPointwise(doc, items, 0, translate, flags, Tally(|items|, 0, 0, 0));
    forall m | 0 <= m < |items|
      ensures items[m].index != j
    {
      assert Lookup(doc[items[m].index], Name).Some?;
    }
  }

  /**
   * A second Step on a way changes nothing: a translated way is now already
   * processed and skipped, and a failed one asks again about the same name,
   * fails the same way and rewrites the `name:ru` value it already has.
   */
  lemma StepStable(w: Way, original: string, translate: Translator)
    requires Lookup(w, Name) == Some(original)
    ensures var w1 := Step(w, original, translate).0;
            Lookup(w1, Name).Some? && Step(w1, Lookup(w1, Name).value, translate).0 == w1
  {
    var (w1, o) := Step(w, original, translate);
    StepEffect(w, original, translate, Name);
    if o == Failed && !IsAlreadyProcessed(w1) {
      SetOrUpdateTagSameValue(w1, NameRu, original);
    }
  }

  /**
   * Running the batch again over the output of an uninterrupted pass, with
   * the same translation service, leaves every way as it is: no way is
   * translated twice and no tag is duplicated.
   */
  lemma RerunChangesNothing(doc: seq<Way>, translate: Translator, flags: seq<bool>, flags': seq<bool>)
    requires StopIndex(flags, 0, |StreetsOf(doc)|) == |StreetsOf(doc)|
    ensures var once := Pass(doc, translate, flags).ways;
            Pass(once, translate, flags').ways == once
  {
    var once := Pass(doc, translate, flags).ways;
    var twice := Pass(once, translate, flags').ways;
    forall j | 0 <= j < |once|
      ensures twice[j] == once[j]
    {
      RerunKeepsWay(doc, translate, flags, flags', j);
    }
  }

  /** The way at position `j` is the same after the second pass as after the first. */
  lemma RerunKeepsWay(doc: seq<Way>, translate: Translator, flags: seq<bool>, flags': seq<bool>, j: nat)
    requires StopIndex(flags, 0, |StreetsOf(doc)|) == |StreetsOf(doc)|
    requires j < |doc|
    ensures var once := Pass(doc, translate, flags).ways;
            Pass(once, translate, flags').ways[j] == once[j]
  {
    var items := StreetsOf(doc);
    var once := Pass(doc, translate, flags).ways;
    var items2 := StreetsOf(once);
    if Named(doc[j]) {
      var m :| 0 <= m < |items| && items[m].index == j;
      PassVisits(doc, translate, flags, m);
      StepStable(doc[j], items[m].original, translate);
      var m2 :| 0 <= m2 < |items2| && items2[m2].index == j;
      PassVisits(once, translate, flags', m2);
    } else {
      PassKeepsUnnamed(doc, translate, flags, j);
      PassKeepsUnnamed(once, translate, flags', j);
    }
  }

  /** A batch pass leaves every already processed way as it was, whatever the service answers. */
  lemma PassKeepsProcessed(doc: seq<Way>, translate: Translator, flags: seq<bool>, j: nat)
    requires j < |doc| && IsAlreadyProcessed(doc[j])
    ensures Pass(doc, translate, flags).ways[j] == doc[j]
  {
    var items := StreetsOf(doc);
    if Named(doc[j]) {
      var m :| 0 <= m < |items| && items[m].index == j;
      PassVisits(doc, translate, flags, m);
    } else {
      PassKeepsUnnamed(doc, translate, flags, j);
    }
  }

  /** A batch pass never gives a key of a way a second tag. */
  lemma PassKeepsUniqueKeys(doc: seq<Way>, translate: Translator, flags: seq<bool>, j: nat)
    requires j < |doc| && UniqueKeys(doc[j])
    ensures UniqueKeys(Pass(doc, translate, flags).ways[j])
  {
    var items := StreetsOf(doc);
    if Named(doc[j]) {
      var m :| 0 <= m < |items| && items[m].index == j;
      PassVisits(doc, translate, flags, m);
      var original := items[m].original;
      if !IsAlreadyProcessed(doc[j]) {
        if Usable(translate(original), original) {
          ApplyTranslationKeepsUnique(doc[j], translate(original).value, original);
        } else {
          SetOrUpdateTagKeepsUnique(doc[j], NameRu, original);
        }
      }
    } else {
      PassKeepsUnnamed(doc, translate, flags, j);
    }
  }

  /**
   * A second batch pass over the output of a first one, with any service:
   * every way the first pass left processed (translated, skipped, or failed
   * while it already had `name:ky`) stays as it is, and no key of any way
   * gains a second tag over the two passes.
   */
  lemma RerunWithOtherService(doc: seq<Way>, translate: Translator, translate': Translator,
                              flags: seq<bool>, flags': seq<bool>, j: nat)
    requires j < |doc|
    ensures var once := Pass(doc, translate, flags).ways;
            var twice := Pass(once, translate', flags').ways;
            && (IsAlreadyProcessed(once[j]) ==> twice[j] == once[j])
            && (UniqueKeys(doc[j]) ==> UniqueKeys(once[j]) && UniqueKeys(twice[j]))
  {
    var once := Pass(doc, translate, flags).ways;
    if IsAlreadyProcessed(once[j]) {
      PassKeepsProcessed(once, translate', flags', j);
    }
    if UniqueKeys(doc[j]) {
      PassKeepsUniqueKeys(doc, translate, flags, j);
      PassKeepsUniqueKeys(once, translate', flags', j);
    }
  }

  /**
   * A street whose translation failed in the first pass, on a way without
   * `name:ky`, stays unprocessed under its original name, and an
   * uninterrupted second pass retries it: its way ends as one iteration with
   * the second pass's service makes it.
   */
  lemma RerunRetriesFailure(doc: seq<Way>, translate: Translator, translate': Translator,
                            flags: seq<bool>, flags': seq<bool>, m: nat)
    requires m < StopIndex(flags, 0, |StreetsOf(doc)|)
    requires Classify(doc[StreetsOf(doc)[m].index], StreetsOf(doc)[m].original, translate) == Failed
    requires !HasKey(doc[StreetsOf(doc)[m].index], NameKy)
    requires StopIndex(flags', 0, |StreetsOf(Pass(doc, translate, flags).ways)|)
          == |StreetsOf(Pass(doc, translate, flags).ways)|
    ensures var st := StreetsOf(doc)[m];
            var once := Pass(doc, translate, flags).ways;
            var twice := Pass(once, translate', flags').ways;
            && !IsAlreadyProcessed(once[st.index])
            && Lookup(once[st.index], Name) == Some(st.original)
            && twice[st.index] == Step(once[st.index], st.original, translate').0
  {
    var items := StreetsOf(doc);
    var st := items[m];
    var j := st.index;
    var once := Pass(doc, translate, flags).ways;
    PassVisits(doc, translate, flags, m);
    StepEffect(doc[j], st.original, translate, Name);
    assert Named(once[j]);
    var items2 := StreetsOf(once);
    var m2 :| 0 <= m2 < |items2| && items2[m2].index == j;
    PassVisits(once, translate', flags', m2);
  }

  /**
   * When the driver decides not to write (nothing translated, nothing
   * failed), the pass left the document exactly as it found it, so
   * discarding it loses nothing.
   */
  lemma {:induction false} LoopDiscardKeepsWays(ways: seq<Way>, items: seq<Street>, k: nat,
                                                translate: Translator, flags: seq<bool>, t: Tally)
    requires k <= |items| && InBounds(items, |ways|)
    requires Loop(ways, items, k, translate, flags, t).1.processed == t.processed
    requires Loop(ways, items, k, translate, flags, t).1.errors == t.errors
    ensures Loop(ways, items, k, translate, flags, t).0 == ways
    decreases |items| - k
  {
    if k == |items| || Interrupted(flags, k) {
    } else {
      var s := items[k];
      var (w, o) := Step(ways[s.index], s.original, translate);
      LoopDiscardKeepsWays(ways[s.index := w], items, k + 1, translate, flags, Count(t, o));
    }
  }

  /** Whenever the driver writes nothing after a batch pass, the pass changed no way. */
  lemma DiscardKeepsDocument(doc: seq<Way>, translate: Translator, flags: seq<bool>)
    ensures !WritesOutput(Pass(doc, translate, flags).tally) ==> Pass(doc, translate, flags).ways == doc
  {
    var items := StreetsOf(doc);
    if !WritesOutput(Pass(doc, translate, flags).tally) {
      LoopDiscardKeepsWays(doc, items, 0, translate, flags, Tally(|items|, 0, 0, 0));
    }
  }

  /** The positions in `[lo, hi)` holding outcome `o`. */
  function Where(os: seq<Outcome>, lo: nat, hi: nat, o: Outcome): set<nat>
    requires hi <= |os|
  {
    set m: nat | lo <= m < hi && os[m] == o
  }

  /** The number of positions in `[lo, hi)` holding outcome `o`, counted one by one. */
  function Occurrences(os: seq<Outcome>, lo: nat, hi: nat, o: Outcome): nat
    requires hi <= |os|
    decreases hi - lo
  {
    if lo >= hi then 0 else (if os[lo] == o then 1 else 0) + Occurrences(os, lo + 1, hi, o)
  }

  /** Counting one by one gives the size of the `Where` set. */
  lemma {:induction false} OccurrencesCountsWhere(os: seq<Outcome>, lo: nat, hi: nat, o: Outcome)
    requires hi <= |os|
    ensures Occurrences(os, lo, hi, o) == |Where(os, lo, hi, o)|
    decreases hi - lo
  {
    if lo >= hi {
      assert Where(os, lo, hi, o) == {};
    } else {
      WhereSplit(os, lo, hi, o);
      OccurrencesCountsWhere(os, lo + 1, hi, o);
    }
  }

  /** Splitting off position `lo` from a `Where` set. */
  lemma WhereSplit(os: seq<Outcome>, lo: nat, hi: nat, o: Outcome)
    requires lo < hi <= |os|
    ensures |Where(os, lo, hi, o)| == |Where(os, lo + 1, hi, o)| + (if os[lo] == o then 1 else 0)
  {
    if os[lo] == o {
      assert Where(os, lo, hi, o) == Where(os, lo + 1, hi, o) + {lo};
    } else {
      assert Where(os, lo, hi, o) == Where(os, lo + 1, hi, o);
    }
  }

  /** One iteration of the loop, when it runs. */
  lemma LoopUnfold(ways: seq<Way>, items: seq<Street>, k: nat, translate: Translator, flags: seq<bool>, t: Tally)
    requires k < |items| && InBounds(items, |ways|) && !Interrupted(flags, k)
    ensures var r := Step(ways[items[k].index], items[k].original, translate);
            Loop(ways, items, k, translate, flags, t)
            == Loop(ways[items[k].index := r.0], items, k + 1, translate, flags, Count(t, r.1))
  {
  }

  /** Replacing the way of iteration `k` leaves the ways of later iterations as they were. */
  lemma LaterWaysUnchanged(ways: seq<Way>, items: seq<Street>, k: nat, w: Way)
    requires k < |items| && InBounds(items, |ways|) && Increasing(items)
    ensures forall m :: k < m < |items| ==> ways[items[k].index := w][items[m].index] == ways[items[m].index]
  {
  }

  /** The counter that iterations with outcome `o` increment. */
  function Counter(t: Tally, o: Outcome): nat
  {
    match o
    case Skipped => t.skipped
    case Translated => t.processed
    case Failed => t.errors
  }

  /**
   * `os` lists, from iteration `k` on, the branch each street's way takes
   * when the loop reaches it, the ways being updated as the loop goes.
   */
  predicate Predicts(os: seq<Outcome>, ways: seq<Way>, items: seq<Street>, k: nat, translate: Translator)
    requires |items| == |os| && InBounds(items, |ways|)
    decreases |items| - k
  {
    var j := if k < |items| then items[k].index else 0;
    || k >= |items|
    || (&& os[k] == Classify(ways[j], items[k].original, translate)
        && Predicts(os, ways[j := Step(ways[j], items[k].original, translate).0], items, k + 1, translate))
  }

  /**
   * Each counter grows by the number of iterations, from `k` to the stop,
   * whose way took the matching branch; `os` lists the branch of every
   * iteration still to come.
   */
  lemma {:induction false} LoopCounts(ways: seq<Way>, items: seq<Street>, k: nat, translate: Translator,
                                      flags: seq<bool>, t: Tally, os: seq<Outcome>, c: Outcome)
    requires k <= |items| == |os| && InBounds(items, |ways|)
    requires Predicts(os, ways, items, k, translate)
    ensures Counter(Loop(ways, items, k, translate, flags, t).1, c)
         == Counter(t, c) + Occurrences(os, k, StopIndex(flags, k, |items|), c)
    decreases |items| - k
  {
    if k < |items| && !Interrupted(flags, k) {
      var j := items[k].index;
      var r := Step(ways[j], items[k].original, translate);
      LoopUnfold(ways, items, k, translate, flags, t);
      LoopCounts(ways[j := r.0], items, k + 1, translate, flags, Count(t, r.1), os, c);
    }
  }

  /**
   * Before the loop reaches iteration `k`, the ways it will visit still hold
   * their original tags, so the branches computed from the document are the
   * ones the loop takes.
   */
  lemma {:induction false} BranchesPredict(doc: seq<Way>, ways: seq<Way>, k: nat, translate: Translator)
    requires |ways| == |doc| && k <= |StreetsOf(doc)|
    requires forall m :: k <= m < |StreetsOf(doc)| ==> ways[StreetsOf(doc)[m].index] == doc[StreetsOf(doc)[m].index]
    ensures Predicts(Branches(doc, translate), ways, StreetsOf(doc), k, translate)
    decreases |StreetsOf(doc)| - k
  {
    var items := StreetsOf(doc);
    if k < |items| {
      var j := items[k].index;
      var w := Step(ways[j], items[k].original, translate).0;
      LaterWaysUnchanged(ways, items, k, w);
      BranchesPredict(doc, ways[j := w], k + 1, translate);
    }
  }

  /** The branch every street of the document takes when the pass reaches it. */
  function Branches(doc: seq<Way>, translate: Translator): (r: seq<Outcome>)
    ensures |r| == |StreetsOf(doc)|
    ensures forall m :: 0 <= m < |r| ==>
      r[m] == Classify(doc[StreetsOf(doc)[m].index], StreetsOf(doc)[m].original, translate)
  {
    var items := StreetsOf(doc);
    seq(|items|, m requires 0 <= m < |items| => Classify(doc[items[m].index], items[m].original, translate))
  }

  /**
   * What the counters of a batch pass count, among the iterations run:
   * `skipped` those whose way was already processed, `processed` those whose
   * translation was applied and `errors` those whose translation was missing,
   * empty or unchanged.
   */
  lemma PassCounts(doc: seq<Way>, translate: Translator, flags: seq<bool>, c: Outcome)
    ensures Counter(Pass(doc, translate, flags).tally, c)
         == |Where(Branches(doc, translate), 0, StopIndex(flags, 0, |StreetsOf(doc)|), c)|
  {
    var items := StreetsOf(doc);
    var t0 := Tally(|items|, 0, 0, 0);
    assert Pass(doc, translate, flags).tally == Loop(doc, items, 0, translate, flags, t0).1;
    BranchesPredict(doc, doc, 0, translate);
    LoopCounts(doc, items, 0, translate, flags, t0, Branches(doc, translate), c);
    OccurrencesCountsWhere(Branches(doc, translate), 0, StopIndex(flags, 0, |items|), c);
  }
}
