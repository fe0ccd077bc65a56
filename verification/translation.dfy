/**
 * The translation service, seen from the processing loops: a black box that
 * maps a Russian street name to a proposed Kyrgyz name or to nothing (the call
 * failed or returned blank text).
 */
module Translation {
  import opened Wrappers

  /** The service as a deterministic function of the name it is asked about. */
  type Translator = string -> Option<string>

  /**
   * A proposal is used only when it is present, non-empty (an empty string is
   * falsy) and differs from the original name (add_kyrgyz_names.py:167, 238).
   */
  predicate Usable(proposal: Option<string>, original: string)
  {
    proposal.Some? && proposal.value != "" && proposal.value != original
  }
}
