/**
 * The settings tab: the election's title and date, and the list of owner
 * e-mail addresses, edited in place and saved separately.
 */
module Settings {
  import opened Wrappers
  import opened Splice
  import opened QVClient

  /** `owners.filter(Boolean)`: the entries that are not empty, in order. */
  function NonEmpty(owners: seq<string>): (r: seq<string>)
    ensures "" !in r
    ensures forall x :: x != "" ==> multiset(r)[x] == multiset(owners)[x]
    ensures |r| <= |owners|
  {
    if owners == [] then []
    else
      assert owners == [owners[0]] + owners[1..];
      (if owners[0] != "" then [owners[0]] else []) + NonEmpty(owners[1..])
  }

  /** Filtering keeps order: the filter of a concatenation is the concatenation of the filters. */
  lemma {:induction false} NonEmptyConcat(a: seq<string>, b: seq<string>)
    ensures NonEmpty(a + b) == NonEmpty(a) + NonEmpty(b)
  {
    if a == [] {
      assert a + b == b;
    } else {
      assert (a + b)[1..] == a[1..] + b;
      assert NonEmpty(a + b) == (if a[0] != "" then [a[0]] else []) + NonEmpty((a + b)[1..]);
      NonEmptyConcat(a[1..], b);
    }
  }

  /** Filtering a filtered list changes nothing. */
  lemma {:induction false} NonEmptyIdempotent(owners: seq<string>)
    ensures NonEmpty(NonEmpty(owners)) == NonEmpty(owners)
  {
    if owners != [] {
      var head := if owners[0] != "" then [owners[0]] else [];
      NonEmptyConcat(head, NonEmpty(owners[1..]));
      NonEmptyIdempotent(owners[1..]);
    }
  }

  /** A list with no empty entry is its own filter. */
  lemma {:induction false} NonEmptyKeepsFilled(owners: seq<string>)
    requires "" !in owners
    ensures NonEmpty(owners) == owners
  {
    if owners != [] {
      NonEmptyKeepsFilled(owners[1..]);
    }
  }

  /** An entry added with "Add" and left empty disappears when the owners are saved. */
  lemma BlankOwnerVanishesOnSave(owners: seq<string>)
    ensures NonEmpty(owners + [""]) == NonEmpty(owners)
  {
    NonEmptyConcat(owners, [""]);
  }

  /** `s[i]` in JavaScript: undefined outside the array, so `owners[-1]` of an empty list is undefined. */
  function At(s: seq<string>, i: int): Option<string>
  {
    if 0 <= i < |s| then Some(s[i]) else None
  }

  /** addOwner's guard: the last entry is truthy. */
  function CanAddOwner(owners: seq<string>): (r: bool)
    ensures r ==> owners != [] && owners[|owners| - 1] != ""
  {
    Truthy(At(owners, |owners| - 1))
  }

  /**
   * "Add" works exactly when there is a last entry and it is filled in; right
   * after an add it is refused until the new entry is filled in.
   */
  lemma AddOwnerGuard(owners: seq<string>)
    ensures CanAddOwner(owners) <==> owners != [] && owners[|owners| - 1] != ""
    ensures !CanAddOwner(owners + [""])
  {
  }

  class SettingsTab {
    /** The election whose settings are edited. */
    var model: Election
    /** Title or date edited and not saved. */
    var isDirty: bool
    /** Owner list edited and not saved. */
    var isDirtyOwners: bool
    /** A save of the election is in flight. */
    var saving: bool
    /** Elections posted by the Save button, oldest first. */
    var postedModels: seq<Election>
    /** Owner lists posted by the owners' Save button, oldest first. */
    var postedOwners: seq<seq<string>>

    constructor (model: Election)
      ensures this.model == model && !isDirty && !isDirtyOwners && !saving
      ensures postedModels == [] && postedOwners == []
    {
      this.model := model;
      isDirty := false;
      isDirtyOwners := false;
      saving := false;
      postedModels := [];
      postedOwners := [];
    }

    /** handlePageTitleChange: only the title changes, and the form is dirty. */
    method HandlePageTitleChange(title: string)
      modifies this
      ensures model == old(model).(title := title) && isDirty
      ensures isDirtyOwners == old(isDirtyOwners) && saving == old(saving)
      ensures postedModels == old(postedModels) && postedOwners == old(postedOwners)
    {
      model := model.(title := title);
      isDirty := true;
    }

    /** handlePageDateChange: only the target date changes, and the form is dirty. */
    method HandlePageDateChange(date: Option<int>)
      modifies this
      ensures model == old(model).(targetDate := date) && isDirty
      ensures isDirtyOwners == old(isDirtyOwners) && saving == old(saving)
      ensures postedModels == old(postedModels) && postedOwners == old(postedOwners)
    {
      model := model.(targetDate := date);
      isDirty := true;
    }

    /** handleOwnerChange: only entry `index` is replaced. */
    method HandleOwnerChange(value: string, index: nat)
      requires index < |model.owners|
      modifies this
      ensures model == old(model).(owners := old(model.owners)[index := value]) && isDirtyOwners
      ensures isDirty == old(isDirty) && saving == old(saving)
      ensures postedModels == old(postedModels) && postedOwners == old(postedOwners)
    {
      model := model.(owners := model.owners[index := value]);
      isDirtyOwners := true;
    }

    /** removeOwner: exactly entry `index` is deleted (nothing when there is none). */
    method RemoveOwner(index: nat)
      modifies this
      ensures model == old(model).(owners := RemoveAt(old(model.owners), index)) && isDirtyOwners
      ensures isDirty == old(isDirty) && saving == old(saving)
      ensures postedModels == old(postedModels) && postedOwners == old(postedOwners)
    {
      model := model.(owners := RemoveAt(model.owners, index));
      isDirtyOwners := true;
    }

    /** addOwner: appends one empty entry unless the last entry is empty or missing. */
    method AddOwner() returns (added: bool)
      modifies this
      ensures added <==> CanAddOwner(old(model.owners))
      ensures added ==> model == old(model).(owners := old(model.owners) + [""]) && isDirtyOwners
      ensures !added ==> model == old(model) && isDirtyOwners == old(isDirtyOwners)
      ensures isDirty == old(isDirty) && saving == old(saving)
      ensures postedModels == old(postedModels) && postedOwners == old(postedOwners)
    {
      added := CanAddOwner(model.owners);
      if added {
        model := model.(owners := model.owners + [""]);
        isDirtyOwners := true;
      }
    }

    /**
     * saveOwners: the empty entries are dropped from the list (the owners
     * object is shared with the host's model, so the list posted is filtered
     * again) and the filtered list is posted.
     */
    method SaveOwners()
      requires isDirtyOwners
      modifies this
      ensures model == old(model).(owners := NonEmpty(old(model.owners)))
      ensures postedOwners == old(postedOwners) + [NonEmpty(old(model.owners))]
      ensures isDirty == old(isDirty) && isDirtyOwners == old(isDirtyOwners) && saving == old(saving)
      ensures postedModels == old(postedModels)
    {
      model := model.(owners := NonEmpty(model.owners));
      NonEmptyIdempotent(old(model.owners));
      postedOwners := postedOwners + [NonEmpty(model.owners)];
    }

    /** The owners were accepted by the server. */
    method OwnersSaved()
      modifies this
      ensures !isDirtyOwners
      ensures model == old(model) && isDirty == old(isDirty) && saving == old(saving)
      ensures postedModels == old(postedModels) && postedOwners == old(postedOwners)
    {
      isDirtyOwners := false;
    }

    /** The Save button (enabled while not saving and dirty): posts the election. */
    method Save()
      requires !saving && isDirty
      modifies this
      ensures saving && postedModels == old(postedModels) + [old(model)]
      ensures model == old(model) && isDirty == old(isDirty) && isDirtyOwners == old(isDirtyOwners)
      ensures postedOwners == old(postedOwners)
    {
      saving := true;
      postedModels := postedModels + [model];
    }

    /** The post succeeded: the title and date are clean again. */
    method SaveSucceeded()
      modifies this
      ensures !saving && !isDirty
      ensures model == old(model) && isDirtyOwners == old(isDirtyOwners)
      ensures postedModels == old(postedModels) && postedOwners == old(postedOwners)
    {
      saving := false;
      isDirty := false;
    }

    /** The post failed: the edits stay, still unsaved. */
    method SaveFailed()
      modifies this
      ensures !saving
      ensures model == old(model) && isDirty == old(isDirty) && isDirtyOwners == old(isDirtyOwners)
      ensures postedModels == old(postedModels) && postedOwners == old(postedOwners)
    {
      saving := false;
    }
  }
}
