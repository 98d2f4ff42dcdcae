/** The filter chips of the firewall screen. Three type chips ("all", "user",
    "system") and two status chips ("allowed", "blocked"); the transition rule
    keeps at most one chip of each group selected and falls back to "all" or
    "user" when the type group would otherwise be left empty. */
module FilterChips {

  const All: string := "all"
  const User: string := "user"
  const SystemChip: string := "system"
  const Allowed: string := "allowed"
  const Blocked: string := "blocked"

  /** The chips the screen shows and saves, in its order. */
  const ChipIds: seq<string> := [All, User, SystemChip, Allowed, Blocked]

  const TypeChips: set<string> := {All, User, SystemChip}
  const StatusChips: set<string> := {Allowed, Blocked}

  /** Exactly one type chip, at most one status chip, nothing else. */
  predicate Consistent(selected: set<string>)
  {
    && selected <= TypeChips + StatusChips
    && ((All in selected && User !in selected && SystemChip !in selected)
     || (All !in selected && User in selected && SystemChip !in selected)
     || (All !in selected && User !in selected && SystemChip in selected))
    && !(Allowed in selected && Blocked in selected)
  }

  /** The body of the chip listener: the selection after chip `chipId` becomes
      `isChecked`. Selecting "all" restores the status chips from their saved
      states `savedAllowed` and `savedBlocked`. */
  function Transition(selected: set<string>, chipId: string, isChecked: bool,
                      savedAllowed: bool, savedBlocked: bool): (r: set<string>)
    // selecting a type chip makes it the only type chip, keeping the status chips
    ensures isChecked && chipId in {User, SystemChip} ==>
      r * TypeChips == {chipId} && r - TypeChips == selected - TypeChips
    // selecting "all" keeps exactly the status chips whose saved state is on
    ensures isChecked && chipId == All ==>
      r * TypeChips == {All} && r - TypeChips == (if savedAllowed then {Allowed} else {}) + (if savedBlocked then {Blocked} else {})
    // selecting a status chip makes it the only status chip, keeping the type chips
    ensures isChecked && chipId in StatusChips ==>
      r * StatusChips == {chipId} && r - StatusChips == selected - StatusChips
    // deselecting "all" leaves "user" alone
    ensures !isChecked && chipId == All ==> r == {User}
    // deselecting "user" or "system" removes it and falls back to "all" when no type chip is left
    ensures !isChecked && chipId in {User, SystemChip} ==>
      && chipId !in r
      && (selected * TypeChips - {chipId} == {} ==> r == selected - {chipId} + {All})
      && (selected * TypeChips - {chipId} != {} ==> r == selected - {chipId})
    // deselecting a status chip only removes it
    ensures !isChecked && chipId in StatusChips ==> r == selected - {chipId}
    // a chip without a listener changes nothing
    ensures chipId !in TypeChips + StatusChips ==> r == selected
  {
    if isChecked && chipId == All then
      {All} + (if savedAllowed then {Allowed} else {}) + (if savedBlocked then {Blocked} else {})
    else if isChecked && chipId == User then
      selected - {All} - {SystemChip} + {User}
    else if isChecked && chipId == SystemChip then
      selected - {All} - {User} + {SystemChip}
    else if isChecked && chipId == Allowed then
      selected - {Blocked} + {Allowed}
    else if isChecked && chipId == Blocked then
      selected - {Allowed} + {Blocked}
    else if !isChecked && chipId == All then
      {User}
    else if !isChecked && (chipId == User || chipId == SystemChip) then
      var rest := selected - {chipId};
      if rest * TypeChips == {} then rest + {All} else rest
    else if !isChecked && (chipId == Allowed || chipId == Blocked) then
      selected - {chipId}
    else
      selected
  }

  /** From a consistent selection whose saved status states mirror it, every
      transition leads to a consistent selection. */
  lemma TransitionKeepsConsistent(selected: set<string>, chipId: string, isChecked: bool,
                                  savedAllowed: bool, savedBlocked: bool)
    requires Consistent(selected)
    requires savedAllowed == (Allowed in selected) && savedBlocked == (Blocked in selected)
    ensures Consistent(Transition(selected, chipId, isChecked, savedAllowed, savedBlocked))
  {
  }
}
