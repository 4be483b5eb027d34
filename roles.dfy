/**
 * The role gate placed in front of a route: it lets a request through to
 * the next handler when the caller's role is one of the route's roles, and
 * answers 403 otherwise.
 */
module Roles {
  import opened Records

  /** What the gate does with a request: pass it on, or answer it itself. */
  datatype GateOutcome = CallNext | Respond(status: int)

  /** The gate built for `roles`, applied to a caller whose token carries `role`. */
  function RoleGate(roles: seq<string>, role: string): (r: GateOutcome)
    ensures r == CallNext <==> role in roles
    ensures r.Respond? ==> r.status == 403
  {
    if role in roles then CallNext else Respond(403)
  }

  /** The role names tokens carry. */
  function RoleName(role: Role): string {
    match role
    case Admin => "admin"
    case Profesional => "profesional"
    case Paciente => "paciente"
  }

  /** A gate with no roles refuses everyone. */
  lemma EmptyGateRefusesAll(role: string)
    ensures RoleGate([], role) == Respond(403)
  {
  }

  /** Listing more roles never locks out a caller who was let through. */
  lemma MoreRolesAdmitMore(roles: seq<string>, more: seq<string>, role: string)
    ensures RoleGate(roles, role) == CallNext ==> RoleGate(roles + more, role) == CallNext
    ensures RoleGate(more, role) == CallNext ==> RoleGate(roles + more, role) == CallNext
  {
  }

  /** The order of the list does not matter, only its members. */
  lemma GateDependsOnMembersOnly(roles: seq<string>, others: seq<string>, role: string)
    requires (set r | r in roles) == (set r | r in others)
    ensures RoleGate(roles, role) == RoleGate(others, role)
  {
    var mine, theirs := set r | r in roles, set r | r in others;
    if role in roles {
      assert role in mine;
      assert role in theirs;
    }
    if role in others {
      assert role in theirs;
      assert role in mine;
    }
  }

  /** A route open to patients only turns professionals and administrators away. */
  lemma PatientOnlyRoute()
    ensures RoleGate([RoleName(Paciente)], RoleName(Paciente)) == CallNext
    ensures RoleGate([RoleName(Paciente)], RoleName(Profesional)) == Respond(403)
    ensures RoleGate([RoleName(Paciente)], RoleName(Admin)) == Respond(403)
  {
    assert RoleName(Profesional)[1] != RoleName(Paciente)[1];
  }
}
