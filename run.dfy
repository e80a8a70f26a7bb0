/**
 * The run tab: where the election stands, when live ballot counts are
 * polled, and the transitions (begin, close voting, next round, quick polls).
 * A transition is a request followed by a reload of the whole election; the
 * two halves are separate methods because the server answers later.
 */
module Run {
  import opened Wrappers
  import opened QVClient

  datatype Phase = NotStarted | VotingOpen | InBetween | QuickPoll

  /**
   * The four render branches of the tab, each as its guard is written on the
   * numeric stage (`stageHalves` is twice the stage; `stage % 1 === 0` is
   * `stageHalves` being even).
   */
  function Shows(p: Phase, stageHalves: int, message: Option<string>): (r: bool)
    ensures r ==> WellPlaced(stageHalves)
    ensures r && stageHalves % 2 != 0 ==> (p == QuickPoll <==> Truthy(message))
  {
    match p
    case NotStarted => stageHalves == -2
    case VotingOpen => stageHalves >= 0 && stageHalves % 2 == 0
    case InBetween => stageHalves >= 0 && stageHalves % 2 != 0 && !Truthy(message)
    case QuickPoll => stageHalves >= 0 && stageHalves % 2 != 0 && Truthy(message)
  }

  /**
   * The phase of the election: not started at -1 whatever the quick-poll
   * message, voting open at a whole stage, and between stages either idle or
   * conducting a quick poll. At most one branch of the tab shows, the one of
   * this phase; positions the server never reports show none.
   */
  function PhaseOf(stageHalves: int, message: Option<string>): (r: Option<Phase>)
    ensures forall p :: Shows(p, stageHalves, message) <==> r == Some(p)
    ensures r.Some? <==> WellPlaced(stageHalves)
  {
    if stageHalves == -2 then Some(NotStarted)
    else if stageHalves < 0 then None
    else if stageHalves % 2 == 0 then Some(VotingOpen)
    else if Truthy(message) then Some(QuickPoll)
    else Some(InBetween)
  }

  /** fetchStageResults' condition for asking the server for ballot counts. */
  function FetchesResults(stageHalves: int, moniker: int, message: Option<string>): (r: bool)
    ensures r ==> moniker > 0
    ensures moniker > 0 && stageHalves % 2 == 0 ==> r
    ensures stageHalves % 2 != 0 ==> (r <==> moniker > 0 && Truthy(message))
  {
    (moniker > 0 && stageHalves % 2 == 0)
    || (moniker > 0 && stageHalves % 2 != 0 && Truthy(message))
  }

  /**
   * Counts are fetched exactly when the round number is positive and the
   * election is not idle between stages: while voting is open, during a quick
   * poll, and also before the start (-1 is a whole number).
   */
  lemma FetchMatchesPhase(stageHalves: int, moniker: int, message: Option<string>)
    requires WellPlaced(stageHalves)
    ensures FetchesResults(stageHalves, moniker, message) <==>
      moniker > 0 && PhaseOf(stageHalves, message) != Some(InBetween)
    ensures PhaseOf(stageHalves, message) == Some(InBetween) ==> !FetchesResults(stageHalves, moniker, message)
  {
  }

  /** A transition request sent to the server. */
  datatype Request = MoveNextRound(round: int) | StartQuickPoll(message: string) | CloseQuickPoll

  class RunTab {
    /** The election as last loaded. */
    var model: Election
    /** A transition is in flight; the tab shows only "Loading...". */
    var loading: bool
    /** The latest ballot counts, or none. */
    var stageResults: Option<ManageResponse>
    /** Transition requests sent, oldest first. */
    var requests: seq<Request>
    /** Ballot-count requests sent, by round, oldest first. */
    var pollRounds: seq<int>

    /** Mounting the tab fetches the counts once for the loaded election. */
    constructor (model: Election)
      ensures this.model == model && !loading && stageResults.None? && requests == []
      ensures pollRounds == if FetchesResults(model.stageHalves, model.stageRoundMoniker, model.activeQuickPollMessage)
                            then [model.stageRoundMoniker] else []
    {
      this.model := model;
      loading := false;
      stageResults := None;
      requests := [];
      pollRounds := if FetchesResults(model.stageHalves, model.stageRoundMoniker, model.activeQuickPollMessage)
                    then [model.stageRoundMoniker] else [];
    }

    /** The phase of the loaded election. */
    function CurrentPhase(): Option<Phase>
      reads this
    {
      PhaseOf(model.stageHalves, model.activeQuickPollMessage)
    }

    /** fetchStageResults(m): ask for the counts of `m`'s round, or drop the shown counts. */
    method FetchStageResults(m: Election)
      modifies this
      ensures FetchesResults(m.stageHalves, m.stageRoundMoniker, m.activeQuickPollMessage) ==>
        pollRounds == old(pollRounds) + [m.stageRoundMoniker] && stageResults == old(stageResults)
      ensures !FetchesResults(m.stageHalves, m.stageRoundMoniker, m.activeQuickPollMessage) ==>
        pollRounds == old(pollRounds) && stageResults.None?
      ensures model == old(model) && loading == old(loading) && requests == old(requests)
    {
      if FetchesResults(m.stageHalves, m.stageRoundMoniker, m.activeQuickPollMessage) {
        pollRounds := pollRounds + [m.stageRoundMoniker];
      } else {
        stageResults := None;
      }
    }

    /** The 8-second timer: fetch for the election on display. */
    method Tick()
      modifies this
      ensures FetchesResults(model.stageHalves, model.stageRoundMoniker, model.activeQuickPollMessage) ==>
        pollRounds == old(pollRounds) + [model.stageRoundMoniker] && stageResults == old(stageResults)
      ensures !FetchesResults(model.stageHalves, model.stageRoundMoniker, model.activeQuickPollMessage) ==>
        pollRounds == old(pollRounds) && stageResults.None?
      ensures model == old(model) && loading == old(loading) && requests == old(requests)
    {
      FetchStageResults(model);
    }

    /** A ballot-count answer arrives and is shown. */
    method PollArrived(data: ManageResponse)
      modifies this
      ensures stageResults == Some(data)
      ensures model == old(model) && loading == old(loading) && requests == old(requests) && pollRounds == old(pollRounds)
    {
      stageResults := Some(data);
    }

    /** moveToNextRound: start loading, drop the counts and send the round given. */
    method MoveToNextRound(moniker: int)
      modifies this
      ensures loading && stageResults.None?
      ensures requests == old(requests) + [MoveNextRound(moniker)]
      ensures model == old(model) && pollRounds == old(pollRounds)
    {
      loading := true;
      stageResults := None;
      requests := requests + [MoveNextRound(moniker)];
    }

    /** "Begin": shown before the start; sends the loaded round number unchanged. */
    method Begin()
      requires !loading && CurrentPhase() == Some(NotStarted)
      modifies this
      ensures loading && stageResults.None?
      ensures requests == old(requests) + [MoveNextRound(old(model).stageRoundMoniker)]
      ensures model == old(model) && pollRounds == old(pollRounds)
    {
      MoveToNextRound(model.stageRoundMoniker);
    }

    /** "Close voting": shown while voting is open; sends the loaded round number unchanged. */
    method CloseVoting()
      requires !loading && CurrentPhase() == Some(VotingOpen)
      modifies this
      ensures loading && stageResults.None?
      ensures requests == old(requests) + [MoveNextRound(old(model).stageRoundMoniker)]
      ensures model == old(model) && pollRounds == old(pollRounds)
    {
      MoveToNextRound(model.stageRoundMoniker);
    }

    /** "Next round": shown between stages; sends the loaded round number unchanged. */
    method NextRound()
      requires !loading && CurrentPhase() == Some(InBetween)
      modifies this
      ensures loading && stageResults.None?
      ensures requests == old(requests) + [MoveNextRound(old(model).stageRoundMoniker)]
      ensures model == old(model) && pollRounds == old(pollRounds)
    {
      MoveToNextRound(model.stageRoundMoniker);
    }

    /**
     * startQuickPoll with what the prompt returned (None when cancelled): an
     * empty or cancelled message changes nothing and sends nothing.
     */
    method StartQuickPoll(answer: Option<string>)
      requires !loading && CurrentPhase() == Some(InBetween)
      modifies this
      ensures Truthy(answer) ==> loading && stageResults.None? && requests == old(requests) + [Request.StartQuickPoll(answer.value)]
      ensures !Truthy(answer) ==> loading == old(loading) && stageResults == old(stageResults) && requests == old(requests)
      ensures model == old(model) && pollRounds == old(pollRounds)
    {
      if Truthy(answer) {
        loading := true;
        stageResults := None;
        requests := requests + [Request.StartQuickPoll(answer.value)];
      }
    }

    /** closeQuickPoll: shown during a quick poll. */
    method CloseQuickPoll()
      requires !loading && CurrentPhase() == Some(QuickPoll)
      modifies this
      ensures loading && stageResults.None?
      ensures requests == old(requests) + [Request.CloseQuickPoll]
      ensures model == old(model) && pollRounds == old(pollRounds)
    {
      loading := true;
      stageResults := None;
      requests := requests + [Request.CloseQuickPoll];
    }

    /**
     * The server acknowledged a transition and the election was reloaded: the
     * model is replaced wholesale, loading ends and the counts are fetched for
     * the new election.
     */
    method ReloadArrived(data: Election)
      modifies this
      ensures model == data && !loading && requests == old(requests)
      ensures FetchesResults(data.stageHalves, data.stageRoundMoniker, data.activeQuickPollMessage) ==>
        pollRounds == old(pollRounds) + [data.stageRoundMoniker] && stageResults == old(stageResults)
      ensures !FetchesResults(data.stageHalves, data.stageRoundMoniker, data.activeQuickPollMessage) ==>
        pollRounds == old(pollRounds) && stageResults.None?
    {
      model := data;
      FetchStageResults(data);
      loading := false;
    }
  }
}
