/**
 * What both passes share with the driver: the interruption flag as the loops
 * see it, the counters a pass reports back, and the driver's decision whether
 * to write the output document at all.
 */
module Session {

  /**
   * The counters a pass returns: how many streets it reports, how many it
   * translated, how many translations failed and how many ways it skipped
   * as already processed.
   */
  datatype Tally = Tally(total: nat, processed: nat, errors: nat, skipped: nat)

  /**
   * The driver writes the document out, replacing the final output file, only
   * when some street was translated or failed; otherwise it removes the
   * checkpoint file and writes nothing (add_kyrgyz_names.py:328-335).
   */
  predicate WritesOutput(t: Tally)
  {
    t.processed > 0 || t.errors > 0
  }

  /**
   * The interruption flag as seen by the check before iteration `k` (for
   * `k` the length of the street list, the check after the loop); positions
   * past the end of `flags` read as not interrupted. A Ctrl+C while the
   * review prompt waits only sets the flag; the check right after that
   * iteration and the one before the next give the same result, so it is
   * read as the flag before iteration `k + 1`.
   */
  predicate Interrupted(flags: seq<bool>, k: nat)
  {
    k < |flags| && flags[k]
  }
}
