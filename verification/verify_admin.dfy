/**
 * The role guard in front of administrator routes. The role is the one an earlier
 * middleware may have set on the request; it may be missing.
 */
module VerifyAdmin {
  import opened Wrappers

  const AdminRole := "ADMIN"

  datatype GuardOutcome = Next | Status(code: nat)

  function Guard(role: Option<string>): (r: GuardOutcome)
    ensures r == Next || r == Status(401)
    ensures r == Next <==> role == Some(AdminRole)
    ensures !Truthy(role) ==> r == Status(401)
  {
    if !Truthy(role) then Status(401)
    else if role.value != AdminRole then Status(401)
    else Next
  }

  /** The comparison is exact: a role that differs from "ADMIN" only in case is refused. */
  lemma CaseMatters()
    ensures Guard(Some("admin")) == Status(401) && Guard(Some("Admin")) == Status(401)
    ensures Guard(Some(AdminRole)) == Next
  {
  }
}
