/** Security (`SecurityContext`): per-user MFA records, organisation
    custom roles with their permissions and assigned users, the permission
    test, and the newest-first audit log. The one-time-password library
    and the encryption library are parameters or left out. */
module SecurityContext {
  import opened Common
  import opened Text
  import opened Dicts

  /** A user's MFA record. */
  datatype MfaRecord = MfaRecord(secret: string, enabled: bool, pending: bool)

  /** A custom role; `assignedUsers` is absent until someone is assigned. */
  datatype CustomRole = CustomRole(
    name: string,
    permissions: seq<string>,
    organizationId: string,
    createdAt: string,
    assignedUsers: Option<seq<string>>)

  /** A built-in role template. */
  datatype RoleTemplate = RoleTemplate(name: string, permissions: seq<string>)

  /** The built-in role templates. */
  const CUSTOM_ROLES: map<string, RoleTemplate> := map[
    "assessor" := RoleTemplate("Assessor", ["view_assessment", "edit_assessment", "view_risks"]),
    "risk_manager" := RoleTemplate("Risk Manager", ["view_risks", "edit_risks", "view_assessment"]),
    "project_manager" := RoleTemplate("Project Manager", ["view_projects", "edit_projects", "view_risks"]),
    "auditor" := RoleTemplate("Auditor", ["view_assessment", "view_risks", "view_projects", "view_audit_logs"])
  ]

  /** An audit event: a JSON object of string fields. */
  type AuditEvent = map<string, string>

  /** `role.assignedUsers?.includes(userId)`. */
  predicate AssignedTo(role: CustomRole, userId: string)
  {
    role.assignedUsers.Some? && userId in role.assignedUsers.value
  }

  /** The id of an organisation's role: the organisation, '_' and the
      lower-cased role name. */
  function RoleId(organizationId: string, roleName: string): (id: string)
    ensures organizationId + "_" <= id
    ensures |id| == |organizationId| + 1 + |roleName|
    ensures Lower(id[|organizationId| + 1..]) == id[|organizationId| + 1..]
  {
    LowerAt(roleName);
    LowerIdempotent(roleName);
    var id := organizationId + "_" + Lower(roleName);
    assert id[|organizationId| + 1..] == Lower(roleName);
    id
  }

  /** Role ids are not unique across organisations whose ids contain '_':
      the two roles below share one id. */
  lemma RoleIdsCanCollide()
    ensures RoleId("acme_eu", "audit") == RoleId("acme", "eu_audit")
  {
  }

  /** `hasPermission`: the ids of the roles the user is assigned to, and
      whether one of them lists the permission. */
  function Permitted(roles: Dict<string, CustomRole>, userId: string, permission: string): bool
  {
    var vals := roles.vals;
    var userRoles := Filter(roles.keys, (id: string) => id in vals && AssignedTo(vals[id], userId));
    exists i :: 0 <= i < |userRoles| && userRoles[i] in vals && permission in vals[userRoles[i]].permissions
  }

  /** A user has a permission iff some role that has the user assigned
      lists it. */
  lemma PermittedIff(roles: Dict<string, CustomRole>, userId: string, permission: string)
    requires roles.Valid()
    ensures Permitted(roles, userId, permission) <==>
      exists id :: id in roles.vals && AssignedTo(roles.vals[id], userId) && permission in roles.vals[id].permissions
  {
    if exists id :: id in roles.vals && AssignedTo(roles.vals[id], userId) && permission in roles.vals[id].permissions {
      var id :| id in roles.vals && AssignedTo(roles.vals[id], userId) && permission in roles.vals[id].permissions;
      ListedRoleGrants(roles, userId, permission, id);
    }
    if Permitted(roles, userId, permission) {
      GrantingRoleListed(roles, userId, permission);
    }
  }

  /** A role assigned to the user that lists the permission grants it. */
  lemma ListedRoleGrants(roles: Dict<string, CustomRole>, userId: string, permission: string, id: string)
    requires roles.Valid()
    requires id in roles.vals && AssignedTo(roles.vals[id], userId) && permission in roles.vals[id].permissions
    ensures Permitted(roles, userId, permission)
  {
    var vals := roles.vals;
    var p := (id: string) => id in vals && AssignedTo(vals[id], userId);
    var userRoles := Filter(roles.keys, p);
    FilterMember(roles.keys, p, id);
    var i :| 0 <= i < |userRoles| && userRoles[i] == id;
  }

  /** A granted permission comes from a role assigned to the user. */
  lemma GrantingRoleListed(roles: Dict<string, CustomRole>, userId: string, permission: string)
    requires Permitted(roles, userId, permission)
    ensures exists id :: id in roles.vals && AssignedTo(roles.vals[id], userId) && permission in roles.vals[id].permissions
  {
    var vals := roles.vals;
    var p := (id: string) => id in vals && AssignedTo(vals[id], userId);
    var userRoles := Filter(roles.keys, p);
    var i :| 0 <= i < |userRoles| && userRoles[i] in vals && permission in vals[userRoles[i]].permissions;
    FilterMember(roles.keys, p, userRoles[i]);
    assert p(userRoles[i]);
  }

  /** The role as `createCustomRole` stores it: no one assigned. */
  function NewRole(organizationId: string, roleName: string, permissions: seq<string>, createdAt: string): (r: CustomRole)
    ensures r.name == roleName && r.permissions == permissions && r.organizationId == organizationId
    ensures forall u :: !AssignedTo(r, u)
  {
    CustomRole(roleName, permissions, organizationId, createdAt, None)
  }

  /** `assignCustomRole` on an existing role: the user appended to the
      role's users, earlier entries (and duplicates) kept. */
  function WithAssignment(roles: Dict<string, CustomRole>, userId: string, roleId: string): (d: Dict<string, CustomRole>)
    requires roleId in roles.vals
    ensures d.keys == roles.keys
    ensures roleId in d.vals && AssignedTo(d.vals[roleId], userId)
    ensures d.vals[roleId].assignedUsers.Some?
    ensures d.vals[roleId].assignedUsers.value ==
      (if roles.vals[roleId].assignedUsers.Some? then roles.vals[roleId].assignedUsers.value else []) + [userId]
    ensures d.vals[roleId].permissions == roles.vals[roleId].permissions
    ensures forall id :: id in roles.vals && id != roleId ==> id in d.vals && d.vals[id] == roles.vals[id]
  {
    var role := roles.vals[roleId];
    var before := if role.assignedUsers.Some? then role.assignedUsers.value else [];
    roles.Put(roleId, role.(assignedUsers := Some(before + [userId])))
  }

  /** An assignment grants the user every permission of the role. */
  lemma AssignmentGrants(roles: Dict<string, CustomRole>, userId: string, roleId: string, permission: string)
    requires roles.Valid() && roleId in roles.vals && permission in roles.vals[roleId].permissions
    ensures Permitted(WithAssignment(roles, userId, roleId), userId, permission)
  {
    var d := WithAssignment(roles, userId, roleId);
    PutValid(roles, roleId, d.vals[roleId]);
    PermittedIff(d, userId, permission);
  }

  /** An assignment takes no permission from anyone. */
  lemma AssignmentKeepsPermissions(roles: Dict<string, CustomRole>, userId: string, roleId: string, other: string, permission: string)
    requires roles.Valid() && roleId in roles.vals
    requires Permitted(roles, other, permission)
    ensures Permitted(WithAssignment(roles, userId, roleId), other, permission)
  {
    var d := WithAssignment(roles, userId, roleId);
    PutValid(roles, roleId, d.vals[roleId]);
    PermittedIff(roles, other, permission);
    PermittedIff(d, other, permission);
    var id :| id in roles.vals && AssignedTo(roles.vals[id], other) && permission in roles.vals[id].permissions;
    if id == roleId {
      assert AssignedTo(d.vals[id], other);
    }
  }

  /** Re-creating a role under the same id drops its assigned users: the
      user then has a permission only through the other roles. */
  lemma RecreateRevokes(roles: Dict<string, CustomRole>, organizationId: string, roleName: string,
                        permissions: seq<string>, createdAt: string, userId: string, permission: string)
    requires roles.Valid()
    ensures var id := RoleId(organizationId, roleName);
      Permitted(roles.Put(id, NewRole(organizationId, roleName, permissions, createdAt)), userId, permission) <==>
      exists k :: k in roles.vals && k != id && AssignedTo(roles.vals[k], userId) && permission in roles.vals[k].permissions
  {
    PutUnassignedRole(roles, RoleId(organizationId, roleName),
      NewRole(organizationId, roleName, permissions, createdAt), userId, permission);
  }

  /** Storing a role the user is not assigned to under an id leaves the
      user only the permissions of the other roles. */
  lemma PutUnassignedRole(roles: Dict<string, CustomRole>, id: string, role: CustomRole, userId: string, permission: string)
    requires roles.Valid() && !AssignedTo(role, userId)
    ensures Permitted(roles.Put(id, role), userId, permission) <==>
      exists k :: k in roles.vals && k != id && AssignedTo(roles.vals[k], userId) && permission in roles.vals[k].permissions
  {
    if Permitted(roles.Put(id, role), userId, permission) {
      UnassignedRoleGrantsNothing(roles, id, role, userId, permission);
    }
    if exists k :: k in roles.vals && k != id && AssignedTo(roles.vals[k], userId) && permission in roles.vals[k].permissions {
      var k :| k in roles.vals && k != id && AssignedTo(roles.vals[k], userId) && permission in roles.vals[k].permissions;
      OtherRoleStillGrants(roles, id, role, userId, permission, k);
    }
  }

  lemma UnassignedRoleGrantsNothing(roles: Dict<string, CustomRole>, id: string, role: CustomRole, userId: string, permission: string)
    requires roles.Valid() && !AssignedTo(role, userId)
    requires Permitted(roles.Put(id, role), userId, permission)
    ensures exists k :: k in roles.vals && k != id && AssignedTo(roles.vals[k], userId) && permission in roles.vals[k].permissions
  {
    var d := roles.Put(id, role);
    PutValid(roles, id, role);
    PermittedIff(d, userId, permission);
    var k :| k in d.vals && AssignedTo(d.vals[k], userId) && permission in d.vals[k].permissions;
    assert k != id && roles.vals[k] == d.vals[k];
  }

  lemma OtherRoleStillGrants(roles: Dict<string, CustomRole>, id: string, role: CustomRole, userId: string, permission: string, k: string)
    requires roles.Valid() && k in roles.vals && k != id
    requires AssignedTo(roles.vals[k], userId) && permission in roles.vals[k].permissions
    ensures Permitted(roles.Put(id, role), userId, permission)
  {
    var d := roles.Put(id, role);
    PutValid(roles, id, role);
    assert d.vals[k] == roles.vals[k];
    PermittedIff(d, userId, permission);
  }

  /** The security state. */
  class SecurityStore {
    var mfaEnabled: map<string, MfaRecord>
    var auditLogs: seq<AuditEvent>
    var customRoles: Dict<string, CustomRole>

    ghost predicate Valid()
      reads this
    {
      customRoles.Valid()
    }

    /** The provider with the stored security data. */
    constructor(mfa: map<string, MfaRecord>, logs: seq<AuditEvent>, roles: Dict<string, CustomRole>)
      requires roles.Valid()
      ensures Valid() && mfaEnabled == mfa && auditLogs == logs && customRoles == roles
    {
      mfaEnabled := mfa;
      auditLogs := logs;
      customRoles := roles;
    }

    /** `setupMFA` with the generated secret: a pending, not yet enabled
        record. */
    method SetupMfa(userId: string, secret: string) returns (s: string)
      modifies this
      ensures s == secret && mfaEnabled == old(mfaEnabled)[userId := MfaRecord(secret, false, true)]
      ensures !IsMfaEnabled(userId)
      ensures auditLogs == old(auditLogs) && customRoles == old(customRoles)
    {
      mfaEnabled := mfaEnabled[userId := MfaRecord(secret, false, true)];
      s := secret;
    }

    /** `verifyMFA`, with the code check as a parameter: false without a
        record or a secret; a valid code enables MFA for the user. */
    method VerifyMfa(userId: string, token: string, verify: (string, string) -> bool) returns (ok: bool)
      modifies this
      ensures (userId !in old(mfaEnabled) || old(mfaEnabled)[userId].secret == "") ==> !ok
      ensures ok <==> userId in old(mfaEnabled) && old(mfaEnabled)[userId].secret != "" &&
                      verify(token, old(mfaEnabled)[userId].secret)
      ensures ok ==> mfaEnabled == old(mfaEnabled)[userId := old(mfaEnabled)[userId].(enabled := true, pending := false)]
      ensures ok ==> IsMfaEnabled(userId)
      ensures !ok ==> mfaEnabled == old(mfaEnabled)
      ensures auditLogs == old(auditLogs) && customRoles == old(customRoles)
    {
      if userId !in mfaEnabled || mfaEnabled[userId].secret == "" {
        return false;
      }
      var record := mfaEnabled[userId];
      ok := verify(token, record.secret);
      if ok {
        mfaEnabled := mfaEnabled[userId := record.(enabled := true, pending := false)];
      }
    }

    /** `isMFAEnabled`: false for a user without a record. */
    predicate IsMfaEnabled(userId: string)
      reads this
    {
      userId in mfaEnabled && mfaEnabled[userId].enabled
    }

    /** `createCustomRole`: stores the role under its id, replacing any
        role with that id (and its assigned users). */
    method CreateCustomRole(organizationId: string, roleName: string, permissions: seq<string>, createdAt: string)
      returns (roleId: string)
      requires Valid()
      modifies this
      ensures Valid()
      ensures roleId == RoleId(organizationId, roleName)
      ensures customRoles == old(customRoles).Put(roleId, NewRole(organizationId, roleName, permissions, createdAt))
      ensures forall u :: !AssignedTo(customRoles.vals[roleId], u)
      ensures mfaEnabled == old(mfaEnabled) && auditLogs == old(auditLogs)
    {
      roleId := RoleId(organizationId, roleName);
      var role := NewRole(organizationId, roleName, permissions, createdAt);
      PutValid(customRoles, roleId, role);
      customRoles := customRoles.Put(roleId, role);
    }

    /** `assignCustomRole`: appends the user to an existing role. An
        unknown role id changes nothing and reports false. */
    method AssignCustomRole(userId: string, roleId: string) returns (ok: bool)
      requires Valid()
      modifies this
      ensures Valid()
      ensures ok <==> roleId in old(customRoles).vals
      ensures ok ==> customRoles == WithAssignment(old(customRoles), userId, roleId)
      ensures !ok ==> customRoles == old(customRoles)
      ensures ok ==> forall p :: p in customRoles.vals[roleId].permissions ==> HasPermission(userId, p)
      ensures mfaEnabled == old(mfaEnabled) && auditLogs == old(auditLogs)
    {
      if roleId !in customRoles.vals {
        return false;
      }
      var before := customRoles;
      var after := WithAssignment(before, userId, roleId);
      PutValid(before, roleId, after.vals[roleId]);
      forall p | p in after.vals[roleId].permissions
        ensures Permitted(after, userId, p)
      {
        AssignmentGrants(before, userId, roleId, p);
      }
      customRoles := after;
      ok := true;
    }

    /** `hasPermission`. */
    predicate HasPermission(userId: string, permission: string)
      reads this
    {
      Permitted(customRoles, userId, permission)
    }

    /** `logAuditEvent`: the event with a generated id and timestamp, the
        event's own fields taking precedence, put first in the log. */
    method LogAuditEvent(event: AuditEvent, now: nat, nonce: string, timestamp: string) returns (logged: AuditEvent)
      modifies this
      ensures auditLogs == [logged] + old(auditLogs)
      ensures logged.Keys == event.Keys + {"id", "timestamp"}
      ensures forall k :: k in event ==> logged[k] == event[k]
      ensures "id" !in event ==> logged["id"] == NatToString(now) + "_" + nonce
      ensures "timestamp" !in event ==> logged["timestamp"] == timestamp
      ensures mfaEnabled == old(mfaEnabled) && customRoles == old(customRoles)
    {
      logged := map["id" := NatToString(now) + "_" + nonce, "timestamp" := timestamp] + event;
      auditLogs := [logged] + auditLogs;
    }

    /** `getAuditLogs`. */
    function AuditLogs(): (logs: seq<AuditEvent>)
      reads this
      ensures logs == auditLogs
    {
      auditLogs
    }
  }
}
