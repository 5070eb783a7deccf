/**
 * The retrospective coach: three input fields, the list of saved entries, newest first, and a
 * "saved" flag that a timer clears again. `Save` gives the state a save leads to; the `AgileCoach`
 * class holds the component's fields and its handlers update them in place. The date text of an
 * entry comes from the clock and is a parameter.
 */
module Retrospective {
  import opened Types

  datatype Coach = Coach(entries: seq<RetroEntry>, wentWell: string, toImprove: string, actionItem: string, saved: bool)

  const Empty: Coach := Coach([], "", "", "", false)

  /** `handleSave`'s guard: at least one of the first two fields is not empty; no trimming. */
  predicate CanSave(c: Coach) {
    c.wentWell != "" || c.toImprove != ""
  }

  /** `handleSave`: the new entry prepended, the three fields cleared and the flag set; a refused save changes nothing. */
  function Save(c: Coach, date: string): Coach {
    if !CanSave(c) then c
    else Coach([RetroEntry(date, c.wentWell, c.toImprove, c.actionItem)] + c.entries, "", "", "", true)
  }

  /**
   * A save is refused exactly when both of the first two fields are empty, whatever the action
   * item says. An accepted one adds one entry with the three fields as typed in front of the
   * others, which stay as they were, and leaves the fields empty and the flag set.
   */
  lemma SaveSpec(c: Coach, date: string)
    ensures Save(c, date) == c <==> c.wentWell == "" && c.toImprove == ""
    ensures CanSave(c) ==>
      var r := Save(c, date);
      |r.entries| == |c.entries| + 1 && r.entries[1..] == c.entries
      && r.entries[0] == RetroEntry(date, c.wentWell, c.toImprove, c.actionItem)
      && r.wentWell == "" && r.toImprove == "" && r.actionItem == "" && r.saved
    ensures !CanSave(Coach(c.entries, "", "", c.actionItem, c.saved))
  {
  }

  /** Right after a save nothing more can be saved until something is typed. */
  lemma SaveTwiceIsOnce(c: Coach, date: string, later: string)
    ensures Save(Save(c, date), later) == Save(c, date)
  {
  }

  class AgileCoach {
    var entries: seq<RetroEntry>
    var wentWell: string
    var toImprove: string
    var actionItem: string
    var saved: bool

    function State(): Coach
      reads this
    {
      Coach(entries, wentWell, toImprove, actionItem, saved)
    }

    constructor()
      ensures State() == Empty
    {
      entries := [];
      wentWell := "";
      toImprove := "";
      actionItem := "";
      saved := false;
    }

    method HandleSave(date: string)
      modifies this
      ensures State() == Save(old(State()), date)
    {
      if wentWell == "" && toImprove == "" {
        return;
      }
      var entry := RetroEntry(date, wentWell, toImprove, actionItem);
      entries := [entry] + entries;
      wentWell := "";
      toImprove := "";
      actionItem := "";
      saved := true;
    }

    /** The timer that hides the confirmation again. */
    method ClearSaved()
      modifies this
      ensures State() == old(State()).(saved := false)
    {
      saved := false;
    }
  }
}
