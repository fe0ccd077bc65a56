/**
 * The driver: parse the arguments, run the batch or the review pass over the
 * loaded document, and write the result out or discard it.
 */
module Driver {
  import opened Wrappers
  import opened Tags
  import opened Translation
  import opened Session
  import opened Batch
  import opened Review
  import opened Cli

  /**
   * How a run ends: a usage or unknown-flag exit before any file is read; an
   * exception out of the review prompt, leaving the progress file at
   * `cursor`; or a completed pass with its document and counters, whether
   * that document was written, and the progress cursor it left (None in
   * batch mode, which does not touch the progress file).
   */
  datatype RunResult =
    | UsageExit(error: ArgError)
    | Crashed(cursor: nat)
    | Completed(ways: seq<Way>, tally: Tally, written: bool, progress: Option<nat>)

  /**
   * One run of the program on argument list `args`, with `doc` the ways of
   * the document it loads and `start` the cursor held by the progress file
   * (add_kyrgyz_names.py:264-335).
   */
  function Run(args: seq<string>, doc: seq<Way>, translate: Translator, flags: seq<bool>,
               commands: seq<Command>, start: nat): RunResult
  {
    match ParseArgs(args)
    case Failure(e) => UsageExit(e)
    case Success(opts) =>
      if opts.review then
        match ReviewPass(doc, translate, flags, commands, start, opts.limit)
        case Aborted(c) => Crashed(c)
        case Finished(ways, tally, cursor) => Completed(ways, tally, WritesOutput(tally), Some(cursor))
      else
        var b := Pass(doc, translate, flags);
        Completed(b.ways, b.tally, WritesOutput(b.tally), None)
  }

  /**
   * A run that ends without writing had changed no way of the document it
   * loaded, so its own pass is not lost by discarding it. The loaded document
   * may itself be the checkpoint of an earlier run, which the discard deletes
   * (add_kyrgyz_names.py:312-314, 334-335); that file is outside this model.
   */
  lemma RunDiscardChangedNothing(args: seq<string>, doc: seq<Way>, translate: Translator, flags: seq<bool>,
                                 commands: seq<Command>, start: nat)
    ensures var r := Run(args, doc, translate, flags, commands, start);
            r.Completed? && !r.written ==> r.ways == doc
  {
    match ParseArgs(args)
    case Failure(e) =>
    case Success(opts) =>
      if opts.review {
        ReviewDiscardKeepsDocument(doc, translate, flags, commands, start, opts.limit);
      } else {
        DiscardKeepsDocument(doc, translate, flags);
      }
  }

  /**
   * A completed run returns a document of the same length, and in review
   * mode without a `c` command it requested at most the parsed limit of
   * translations.
   */
  lemma RunRespectsLimit(args: seq<string>, doc: seq<Way>, translate: Translator, flags: seq<bool>,
                         commands: seq<Command>, start: nat)
    requires NoUnlimited(commands)
    ensures var r := Run(args, doc, translate, flags, commands, start);
      && (r.Completed? ==> |r.ways| == |doc|)
      && (r.Completed? && r.progress.Some? ==>
            r.tally.total <= ParseArgs(args).value.limit + r.tally.skipped)
  {
    match ParseArgs(args)
    case Failure(e) =>
    case Success(opts) =>
      if opts.review {
        ReviewPassLimit(doc, translate, flags, commands, start, opts.limit);
        ReviewPassBounds(doc, translate, flags, commands, start, opts.limit);
      }
  }
}
