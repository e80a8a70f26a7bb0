/**
 * The agenda tab: the ordered list of stages of the election and the edits
 * made on it. Each handler copies the list, changes one stage (or the order),
 * hands the new election to the host and marks the form dirty; saving posts
 * the election to the server.
 */
module Agenda {
  import opened Wrappers
  import opened Splice
  import opened QVClient
  import opened AgendaSources
  import opened AgendaMove

  /**
   * The stage the "Add stage" button appends: one winner, source fields
   * exclusive, an inline list of candidates.
   */
  function NewStage(): (s: Stage)
    ensures s.nWinners == 1
    ensures Exclusive(s) && CalculateSourceValue(s) == Some(Inline)
  {
    Stage(
      "Manual", "Choose you candidate", 1, Some(false),
      None, Some("CandidateA, CandidateB, CandidateC"), Some(false), None)
  }

  // Row predicates for row `indx` while the election is at `stageHalves` (twice the stage number).

  /** `stage === indx`: voting is open (or just closed) for this row's stage. */
  function IsCurrentRow(stageHalves: int, indx: nat): (r: bool)
    ensures r ==> !IsReadonlyRow(stageHalves, indx) && !IsRemovableRow(stageHalves, indx)
  {
    stageHalves == 2 * indx
  }

  /** `stage === indx + 0.5`: this row's stage has concluded and the next has not begun. */
  function IsMidstageRow(stageHalves: int, indx: nat): (r: bool)
    ensures r ==> IsReadonlyRow(stageHalves, indx) && !IsCurrentRow(stageHalves, indx)
  {
    stageHalves == 2 * indx + 1
  }

  /** `indx < stage`: this row's stage is in the past. */
  function IsReadonlyRow(stageHalves: int, indx: nat): (r: bool)
    ensures r ==> !IsRemovableRow(stageHalves, indx)
    ensures r ==> stageHalves >= 0
    ensures r && indx > 0 ==> IsReadonlyRow(stageHalves, indx - 1)
  {
    2 * indx < stageHalves
  }

  /** `indx > stage`: the row shows its remove button. */
  function IsRemovableRow(stageHalves: int, indx: nat): (r: bool)
    ensures stageHalves < 0 ==> r
  {
    2 * indx > stageHalves
  }

  /** updateSorting's guard: refuse a drop at or before the current stage (`newIndex <= stage`). */
  function SortingAllowed(stageHalves: int, newIndex: nat): (r: bool)
    ensures r <==> IsRemovableRow(stageHalves, newIndex)
  {
    !(2 * newIndex <= stageHalves)
  }

  /**
   * Every row is exactly one of past, current or removable; a midstage row is
   * a past row; and a drop is accepted exactly where a row is removable.
   */
  lemma RowStatusPartition(stageHalves: int, indx: nat)
    ensures IsReadonlyRow(stageHalves, indx) || IsCurrentRow(stageHalves, indx) || IsRemovableRow(stageHalves, indx)
    ensures !(IsReadonlyRow(stageHalves, indx) && IsCurrentRow(stageHalves, indx))
    ensures !(IsReadonlyRow(stageHalves, indx) && IsRemovableRow(stageHalves, indx))
    ensures !(IsCurrentRow(stageHalves, indx) && IsRemovableRow(stageHalves, indx))
    ensures IsMidstageRow(stageHalves, indx) ==> IsReadonlyRow(stageHalves, indx)
    ensures SortingAllowed(stageHalves, indx) <==> IsRemovableRow(stageHalves, indx)
  {
  }

  /** Removing a removable row leaves every stage up to the current one where it was. */
  lemma RemovingFutureStageKeepsStarted(stages: seq<Stage>, stageHalves: int, index: nat, j: nat)
    requires IsRemovableRow(stageHalves, index) && j < |stages| && !IsRemovableRow(stageHalves, j)
    ensures j < |RemoveAt(stages, index)| && RemoveAt(stages, index)[j] == stages[j]
  {
  }

  /**
   * A drag from a removable row to an accepted position leaves every stage up
   * to the current one where it was.
   */
  lemma SortingKeepsStarted(stages: seq<Stage>, stageHalves: int, oldIndex: nat, newIndex: nat, j: nat)
    requires oldIndex < |stages| && newIndex < |stages| && j < |stages|
    requires IsRemovableRow(stageHalves, oldIndex) && SortingAllowed(stageHalves, newIndex)
    requires !IsRemovableRow(stageHalves, j)
    ensures Moved(Lift(stages), oldIndex, newIndex)[j] == Some(stages[j])
  {
    MovedShifts(Lift(stages), oldIndex, newIndex, j);
  }

  class AgendaTab {
    /** The election being edited (the host's model). */
    var model: Election
    /** There are unsaved edits. */
    var isDirty: bool
    /** A save is in flight. */
    var saving: bool
    /** The elections posted to the server by saves, oldest first. */
    var posted: seq<Election>

    constructor (model: Election)
      ensures this.model == model && !isDirty && !saving && posted == []
    {
      this.model := model;
      isDirty := false;
      saving := false;
      posted := [];
    }

    /** Replace stage `index` and mark the form dirty. */
    method SetStage(index: nat, s: Stage)
      requires index < |model.stages|
      modifies this
      ensures model == old(model).(stages := old(model.stages)[index := s])
      ensures isDirty && saving == old(saving) && posted == old(posted)
    {
      model := model.(stages := model.stages[index := s]);
      isDirty := true;
    }

    /**
     * addStage: appends the default stage. Its button is disabled while
     * saving and once the election is done. The host's setModel drops the
     * callback that would save, so nothing is saved and the dirty flag is
     * left as it was.
     */
    method AddStage()
      requires !saving && !model.done
      modifies this
      ensures model == old(model).(stages := old(model.stages) + [NewStage()])
      ensures isDirty == old(isDirty) && saving == old(saving) && posted == old(posted)
    {
      model := model.(stages := model.stages + [NewStage()]);
    }

    /** removeStage: deletes exactly the stage at `index` (nothing when there is none). */
    method RemoveStage(index: nat)
      modifies this
      ensures model == old(model).(stages := RemoveAt(old(model.stages), index))
      ensures isDirty && saving == old(saving) && posted == old(posted)
    {
      model := model.(stages := RemoveAt(model.stages, index));
      isDirty := true;
    }

    /** handleTitleChange. A missing stage makes the source throw: nothing changes. */
    method HandleTitleChange(title: string, index: nat)
      modifies this
      ensures index < |old(model.stages)| ==>
        model == old(model).(stages := old(model.stages)[index := old(model.stages[index]).(title := title)]) && isDirty
      ensures index >= |old(model.stages)| ==> model == old(model) && isDirty == old(isDirty)
      ensures saving == old(saving) && posted == old(posted)
    {
      if index < |model.stages| {
        SetStage(index, model.stages[index].(title := title));
      }
    }

    /** handlePolicyChange. */
    method HandlePolicyChange(policy: string, index: nat)
      modifies this
      ensures index < |old(model.stages)| ==>
        model == old(model).(stages := old(model.stages)[index := old(model.stages[index]).(policy := policy)]) && isDirty
      ensures index >= |old(model.stages)| ==> model == old(model) && isDirty == old(isDirty)
      ensures saving == old(saving) && posted == old(posted)
    {
      if index < |model.stages| {
        SetStage(index, model.stages[index].(policy := policy));
      }
    }

    /** handleForbidUndervoteChange: the selector value "1" means "exactly". */
    method HandleForbidUndervoteChange(val: string, index: nat)
      modifies this
      ensures index < |old(model.stages)| ==>
        model == old(model).(stages := old(model.stages)[index := old(model.stages[index]).(forbidUndervote := Some(val == "1"))]) && isDirty
      ensures index >= |old(model.stages)| ==> model == old(model) && isDirty == old(isDirty)
      ensures saving == old(saving) && posted == old(posted)
    {
      if index < |model.stages| {
        SetStage(index, model.stages[index].(forbidUndervote := Some(val == "1")));
      }
    }

    /**
     * handleNWinnersChange: refused (with an alert, and no change at all) on a
     * Yes/No stage; otherwise only that stage's number of winners changes.
     */
    method HandleNWinnersChange(num: int, index: nat) returns (refused: bool)
      modifies this
      ensures refused <==> index < |old(model.stages)| && CalculateSourceValue(old(model.stages[index])) == Some(YesNo)
      ensures index < |old(model.stages)| && !refused ==>
        model == old(model).(stages := old(model.stages)[index := old(model.stages[index]).(nWinners := num)]) && isDirty
      ensures (index >= |old(model.stages)| || refused) ==> model == old(model) && isDirty == old(isDirty)
      ensures saving == old(saving) && posted == old(posted)
    {
      refused := false;
      if index < |model.stages| {
        var edited := WithWinners(model.stages[index], num);
        if edited.None? {
          refused := true;
        } else {
          SetStage(index, edited.value);
        }
      }
    }

    /** handleFilterUserChange1: choose the filter column (or everyone). */
    method HandleFilterUserChange1(val: string, index: nat)
      modifies this
      ensures index < |old(model.stages)| && WithFilterColumn(old(model.stages[index]), val, old(model.filterColumns)).Some? ==>
        model == old(model).(stages := old(model.stages)[index := WithFilterColumn(old(model.stages[index]), val, old(model.filterColumns)).value]) && isDirty
      ensures (index >= |old(model.stages)| || WithFilterColumn(old(model.stages[index]), val, old(model.filterColumns)).None?) ==>
        model == old(model) && isDirty == old(isDirty)
      ensures saving == old(saving) && posted == old(posted)
    {
      if index < |model.stages| {
        var edited := WithFilterColumn(model.stages[index], val, model.filterColumns);
        if edited.Some? {
          SetStage(index, edited.value);
        }
      }
    }

    /** handleFilterUserChange2: choose the filter value, keeping the column. */
    method HandleFilterUserChange2(val: string, index: nat)
      modifies this
      ensures index < |old(model.stages)| && old(model.stages[index]).filterUser.Some? ==>
        model == old(model).(stages := old(model.stages)[index := WithFilterValue(old(model.stages[index]), val).value]) && isDirty
      ensures (index >= |old(model.stages)| || old(model.stages[index]).filterUser.None?) ==>
        model == old(model) && isDirty == old(isDirty)
      ensures saving == old(saving) && posted == old(posted)
    {
      if index < |model.stages| {
        var edited := WithFilterValue(model.stages[index], val);
        if edited.Some? {
          SetStage(index, edited.value);
        }
      }
    }

    /** handleSInlineChange: the inline candidate list is stored as typed. */
    method HandleSInlineChange(val: string, index: nat)
      modifies this
      ensures index < |old(model.stages)| ==>
        model == old(model).(stages := old(model.stages)[index := old(model.stages[index]).(sourceInline := Some(val))]) && isDirty
      ensures index >= |old(model.stages)| ==> model == old(model) && isDirty == old(isDirty)
      ensures saving == old(saving) && posted == old(posted)
    {
      if index < |model.stages| {
        SetStage(index, model.stages[index].(sourceInline := Some(val)));
      }
    }

    /** handleSSlateChange: the slate reference is stored normalised. */
    method HandleSSlateChange(val: string, index: nat)
      modifies this
      ensures index < |old(model.stages)| ==>
        model == old(model).(stages := old(model.stages)[index := WithSlate(old(model.stages[index]), val)]) && isDirty
      ensures index >= |old(model.stages)| ==> model == old(model) && isDirty == old(isDirty)
      ensures saving == old(saving) && posted == old(posted)
    {
      if index < |model.stages| {
        SetStage(index, WithSlate(model.stages[index], val));
      }
    }

    /** handleSouceChange: switch the stage's candidate source. */
    method HandleSourceChange(val: string, index: nat)
      modifies this
      ensures index < |old(model.stages)| ==>
        model == old(model).(stages := old(model.stages)[index := WithSource(old(model.stages[index]), val)]) && isDirty
      ensures index >= |old(model.stages)| ==> model == old(model)
      ensures index >= |old(model.stages)| ==> (isDirty <==> old(isDirty) || forall k: SourceKind :: val != k.Tag())
      ensures saving == old(saving) && posted == old(posted)
    {
      if index < |model.stages| {
        SetStage(index, WithSource(model.stages[index], val));
      } else if val !in {"yn", "inline", "slate", "alternates"} {
        assert forall k: SourceKind :: k.Tag() in {"yn", "inline", "slate", "alternates"};
        // No branch touches the missing stage, so nothing throws: the
        // unchanged copy is handed to the host and the form is marked dirty.
        isDirty := true;
      } else {
        assert val == YesNo.Tag() || val == Inline.Tag() || val == Slate.Tag() || val == Alternates.Tag();
      }
    }

    /**
     * updateSorting: a drop at or before the current stage is refused (with a
     * toast) and changes nothing; otherwise the stages are reordered by
     * arrayMove. The sortable list reports positions of its own rows, and
     * takes no pointer input while a save is in flight.
     */
    method UpdateSorting(oldIndex: nat, newIndex: nat) returns (refused: bool)
      requires !saving
      requires oldIndex < |model.stages| && newIndex < |model.stages|
      modifies this
      ensures refused <==> !SortingAllowed(old(model.stageHalves), newIndex)
      ensures refused ==> model == old(model) && isDirty == old(isDirty)
      ensures !refused ==> Lift(model.stages) == Moved(Lift(old(model.stages)), oldIndex, newIndex)
      ensures !refused ==> model == old(model).(stages := model.stages) && isDirty
      ensures saving == old(saving) && posted == old(posted)
    {
      refused := !SortingAllowed(model.stageHalves, newIndex);
      if !refused {
        var moved := ArrayMove(Lift(model.stages), oldIndex, newIndex);
        MovedStaysDefined(model.stages, oldIndex, newIndex);
        model := model.(stages := Unlift(moved));
        isDirty := true;
      }
    }

    /** The Save button (enabled while not saving and dirty): posts the election. */
    method Save()
      requires !saving && isDirty
      modifies this
      ensures saving && posted == old(posted) + [old(model)]
      ensures model == old(model) && isDirty == old(isDirty)
    {
      saving := true;
      posted := posted + [model];
    }

    /** The post succeeded: the form is clean again. */
    method SaveSucceeded()
      modifies this
      ensures !saving && !isDirty
      ensures model == old(model) && posted == old(posted)
    {
      saving := false;
      isDirty := false;
    }

    /** The post failed: the edits stay, still unsaved. */
    method SaveFailed()
      modifies this
      ensures !saving
      ensures model == old(model) && isDirty == old(isDirty) && posted == old(posted)
    {
      saving := false;
    }
  }
}
