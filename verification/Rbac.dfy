/** Which human role may approve which risk tier. */
module Rbac {
  import opened Prelude
  import opened Verdicts

  datatype Role = Viewer | Operator | Admin | UnknownRole(text: string)

  datatype Permission =
    | IncidentRead | IncidentCreate | IncidentUpdate | IncidentClose
    | AgentRead | AgentUpdate | AgentDisable
    | ApprovalRead | ApproveLow | ApproveMedium | ApproveHigh | ApprovalReject
    | AuditRead | AuditVerify | PolicyRead | PolicyWrite
    | UserRead | UserWrite | UserDelete

  function Grants(role: Role): set<Permission> {
    match role
    case Viewer => {IncidentRead, AgentRead, ApprovalRead, AuditRead, PolicyRead}
    case Operator =>
      {IncidentRead, IncidentCreate, IncidentUpdate, IncidentClose, AgentRead, AgentDisable, ApprovalRead,
       ApproveLow, ApproveMedium, ApprovalReject, AuditRead, PolicyRead}
    case Admin =>
      {IncidentRead, IncidentCreate, IncidentUpdate, IncidentClose, AgentRead, AgentUpdate, AgentDisable,
       ApprovalRead, ApproveLow, ApproveMedium, ApproveHigh, ApprovalReject, AuditRead, AuditVerify,
       PolicyRead, PolicyWrite, UserRead, UserWrite, UserDelete}
    case UnknownRole(_) => {}
  }

  predicate Can(role: Role, permission: Permission) {
    permission in Grants(role)
  }

  function ApprovalPermissionFor(risk: Risk): Option<Permission> {
    match risk
    case Low => Some(ApproveLow)
    case Medium => Some(ApproveMedium)
    case High => Some(ApproveHigh)
    case _ => None
  }

  predicate CanApproveRisk(role: Role, risk: Risk) {
    ApprovalPermissionFor(risk).Some? && Can(role, ApprovalPermissionFor(risk).value)
  }

  /** The whole approval authority table. */
  lemma ApprovalAuthority(role: Role, risk: Risk)
    ensures CanApproveRisk(role, risk) <==>
            (role == Admin && risk in {Low, Medium, High}) || (role == Operator && risk in {Low, Medium})
  {
  }
}
