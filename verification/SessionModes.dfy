/** The permission-mode fields of src/Session.ts and the operations that move them. */
module SessionModes {
  import opened Outcomes

  datatype Mode = Default | Plan | Auto | Bypass

  /** `prePlan` is the mode that plan mode was entered from, if it was captured. */
  datatype Posture = Posture(mode: Mode, prePlan: Option<Mode>)

  function SetMode(p: Posture, next: Mode): Posture {
    if next == p.mode then p
    else Posture(next, if next == Plan then Some(p.mode) else p.prePlan)
  }

  function ExitPlan(p: Posture): Posture {
    if p.mode != Plan then p else Posture(if p.prePlan.Some? then p.prePlan.value else Default, None)
  }

  class Session {
    var permissionMode: Mode
    var prePlanMode: Option<Mode>

    constructor (initial: Mode)
      ensures View() == Posture(initial, None)
    {
      permissionMode, prePlanMode := initial, None;
    }

    function View(): Posture
      reads this
    {
      Posture(permissionMode, prePlanMode)
    }

    method SetPermissionMode(next: Mode)
      modifies this
      ensures View() == SetMode(old(View()), next)
    {
      if next == permissionMode {
        return;
      }
      if next == Plan && permissionMode != Plan {
        prePlanMode := Some(permissionMode);
      }
      permissionMode := next;
    }

    method ExitPlanMode()
      modifies this
      ensures View() == ExitPlan(old(View()))
    {
      if permissionMode != Plan {
        return;
      }
      var restored := if prePlanMode.Some? then prePlanMode.value else Default;
      permissionMode := restored;
      prePlanMode := None;
    }
  }

  /** The modes a session is set to, one after the other. */
  function SetAll(p: Posture, modes: seq<Mode>): Posture {
    if modes == [] then p else SetMode(SetAll(p, modes[..|modes| - 1]), modes[|modes| - 1])
  }

  /** Leaving plan mode undoes entering it, however often plan mode was asked for in between. */
  lemma {:induction false} ExitUndoesEntry(p: Posture, again: seq<Mode>)
    requires p.mode != Plan && forall k :: 0 <= k < |again| ==> again[k] == Plan
    ensures ExitPlan(SetAll(SetMode(p, Plan), again)) == Posture(p.mode, None)
    ensures SetAll(SetMode(p, Plan), again).mode == Plan
  {
    if again != [] {
      ExitUndoesEntry(p, again[..|again| - 1]);
    }
  }
}
