/** Risk tiers and decisions of a tool-call request. */
module Verdicts {
  import opened Prelude

  datatype Risk = Low | Medium | High | Forbidden | Unrecognised(text: string) {
    /** An unrecognised tier ranks as forbidden. */
    function Rank(): nat {
      match this
      case Low => 0
      case Medium => 1
      case High => 2
      case _ => 3
    }

    predicate AtOrBelow(ceiling: Risk) {
      this != Forbidden && Rank() <= ceiling.Rank()
    }
  }

  function ParseRisk(text: string): Risk {
    if text == "low" then Low
    else if text == "medium" then Medium
    else if text == "high" then High
    else if text == "forbidden" then Forbidden
    else Unrecognised(text)
  }

  datatype Decision =
    | Pending | Allowed | DeniedUnknown | DeniedParams | DeniedPermission | DeniedPolicy
    | AwaitingApproval | Approved | Rejected | Expired
  {
    predicate Permits() {
      this == Allowed || this == Approved
    }

    predicate Terminal() {
      this != Pending && this != AwaitingApproval
    }
  }
}
