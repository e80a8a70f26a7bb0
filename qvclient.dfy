/**
 * The election data the management front end edits and displays: the
 * `IStageDescription`, `IQVModel` and `IManageResponse` shapes of the QuickVote
 * API, as values. The HTTP client methods are not part of this model.
 */
module QVClient {
  import opened Wrappers

  /**
   * One stage (ballot) of the election. The three `source*` fields say where
   * the candidates come from and are meant to be exclusive; a Yes/No ballot is
   * the inline list "Yes,No". Absent optional fields are `None`.
   */
  datatype Stage = Stage(
    policy: string,                   // counting rule, forwarded verbatim
    title: string,
    nWinners: int,                    // number of winners this stage elects
    forbidUndervote: Option<bool>,    // ballots must choose exactly nWinners
    sourceSlate: Option<string>,      // URL of a slate page
    sourceInline: Option<string>,     // ordered, comma-separated candidates
    sourceAlternates: Option<bool>,   // candidates are the previous stage's losers
    filterUser: Option<string>        // "Column:Value" voter filter
  )

  /**
   * The election as loaded from the server. `stageHalves` is the source's
   * numeric `stage` counted in half stages: 2 * stage, so -2 before the
   * election starts, 2n while stage n is open and 2n + 1 between stages n and
   * n + 1. `owners` and `activeQuickPollMessage` are fields the server sends
   * that the tabs read; `filterColumns` is `filterMetadata.columns` reduced to
   * the values of each column.
   */
  datatype Election = Election(
    title: string,
    targetDate: Option<int>,
    stages: seq<Stage>,
    done: bool,
    stageHalves: int,
    stageRoundMoniker: int,
    activeQuickPollMessage: Option<string>,
    filterColumns: map<string, seq<string>>,
    owners: seq<string>
  )

  /** The polling endpoint's answer: ballots received for the current round. */
  datatype ManageResponse = ManageResponse(
    numUsers: int,
    quickPollCountBallotsReceived: int,
    countBallotsReceived: int,
    errorMessage: string
  )

  /** JavaScript truthiness of an optional string: present and not empty. */
  predicate Truthy(s: Option<string>)
  {
    s.Some? && s.value != ""
  }

  /** The position the server may report: not started, or a whole or half stage at or above 0. */
  predicate WellPlaced(stageHalves: int)
  {
    stageHalves == -2 || stageHalves >= 0
  }
}
