/** The tally of outcomes a run or a session keeps; one type for local and remote runs. */
module Report {
  import opened Plan

  datatype Stats = Stats(copied: nat, updated: nat, skipped: nat, deleted: nat, errors: nat, bytes: nat) {
    function Handled(): nat { copied + updated + skipped + errors }

    function Bump(action: Action): Stats {
      match action
      case Copy => this.(copied := copied + 1)
      case Update => this.(updated := updated + 1)
      case Skip => this.(skipped := skipped + 1)
    }

    /** The receiver's `bump`: an update where there was something, otherwise a copy. */
    function Count(existed: bool): Stats { Bump(if existed then Update else Copy) }

    function Fail(): Stats { this.(errors := errors + 1) }
  }

  const NO_STATS := Stats(0, 0, 0, 0, 0, 0)

  /** One entry was counted, as an error if and only if it was not done. */
  predicate CountedOnce(before: Stats, after: Stats, done: bool) {
    && after.Handled() == before.Handled() + 1
    && after.deleted == before.deleted
    && after.errors == (if done then before.errors else before.errors + 1)
  }
}
