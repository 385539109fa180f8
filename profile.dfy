// frontend/screens/Profile.tsx: the career title shown for the player's XP,
// the XP still needed for the next title, and saving an edited username.

module Profile {
  import opened Text
  import opened Types

  datatype Career = Career(title: string, next: int)

  /** `getCareerLevel`. */
  function CareerLevel(xp: int): Career {
    if xp < 1000 then Career("Estagiário Dev", 1000)
    else if xp < 5000 then Career("Dev Júnior", 5000)
    else if xp < 15000 then Career("Dev Pleno", 15000)
    else Career("Dev Sênior", 50000)
  }

  /** The position of a career in the ladder. */
  function CareerRank(xp: int): (r: nat)
    ensures r <= 3
  {
    if xp < 1000 then 0 else if xp < 5000 then 1 else if xp < 15000 then 2 else 3
  }

  /** The rank names the title, and each title's `next` is where the following
      title begins, except for the last. */
  lemma CareerLevelSpec(xp: int)
    ensures CareerLevel(xp).title == ["Estagiário Dev", "Dev Júnior", "Dev Pleno", "Dev Sênior"][CareerRank(xp)]
    ensures CareerRank(xp) < 3 ==> CareerRank(CareerLevel(xp).next) == CareerRank(xp) + 1
    ensures CareerRank(xp) < 3 ==> CareerLevel(xp).next > xp
  {
  }

  /** More XP never gives a lower title. */
  lemma CareerMonotone(a: int, b: int)
    requires a <= b
    ensures CareerRank(a) <= CareerRank(b)
    ensures CareerLevel(a).next <= CareerLevel(b).next
  {
  }

  /** The "remaining XP" text as written: `next - totalXP`. */
  function RemainingAsWritten(xp: int): int {
    CareerLevel(xp).next - xp
  }

  /** Below the top title the remaining XP is positive. */
  lemma RemainingPositiveBelowSenior(xp: int)
    requires xp < 15000
    ensures RemainingAsWritten(xp) > 0
  {
  }

  /** A senior with more than 50000 XP is told a negative number of XP remains. */
  lemma RemainingNegativeForSenior()
    ensures RemainingAsWritten(60000) == -10000
  {
  }

  /** The remaining XP clamped at zero: never negative, and equal to the written
      value wherever that one is positive. */
  function Remaining(xp: int): (r: int)
    ensures r >= 0
    ensures RemainingAsWritten(xp) > 0 ==> r == RemainingAsWritten(xp)
    ensures xp >= 50000 ==> r == 0
  {
    if RemainingAsWritten(xp) > 0 then RemainingAsWritten(xp) else 0
  }

  /** The name editor: whether it is open and the text being edited. */
  class NameEditor {
    var isEditingName: bool
    var tempName: string

    constructor (username: string)
      ensures !isEditingName && tempName == username
    {
      isEditingName := false;
      tempName := username;
    }

    /** `handleSaveName`: a name that is not blank is saved trimmed and the editor
        closes; a blank one changes nothing. */
    method SaveName() returns (saved: Option<string>)
      modifies this
      ensures Strip(old(tempName)) != "" ==> saved == Some(Strip(old(tempName))) && !isEditingName
      ensures Strip(old(tempName)) == "" ==> saved.None? && isEditingName == old(isEditingName)
      ensures saved.Some? ==> saved.value != "" && NoEdgeSpace(saved.value) && Strip(saved.value) == saved.value
      ensures tempName == old(tempName)
    {
      var trimmed := Strip(tempName);
      if trimmed != "" {
        StripShape(tempName);
        StripIdempotent(tempName);
        isEditingName := false;
        return Some(trimmed);
      }
      return None;
    }
  }
}
