/**
 * The sharing procedures, each one transaction on the database: who may call it, what it
 * changes, and the rule that names the code of a refusal.
 */
module VaultServer {
  import opened Prelude
  import opened Crypto
  import opened Tables
  import opened Vaults
  import opened VaultRuns
  import opened VaultEffects

  /** A procedure leaves the vault of its rule, or changes nothing and throws the rule's code. */
  predicate Did(before: map<VaultId, Vault>, after: map<VaultId, Vault>, id: VaultId, code: Option<Code>, outcome: Result<Vault, Code>) {
    after == Written(before, id, outcome) && code == CodeOf(outcome)
  }

  /** A refusal changes nothing; a call that went through changes no other vault. */
  ghost predicate Touched(before: map<VaultId, Vault>, after: map<VaultId, Vault>, id: VaultId, code: Option<Code>) {
    if code.Some? then after == before
    else id in after && after.Keys == before.Keys + {id} && forall other :: other in before && other != id ==> after[other] == before[other]
  }

  method CreateVault(db: Database, id: VaultId, user: UserId, wrap: Cipher) returns (code: Option<Code>)
    modifies db`vaults
    ensures Did(old(db.vaults), db.vaults, id, code, Create(old(db.vaults), id, user, wrap))
    ensures Touched(old(db.vaults), db.vaults, id, code) && (code.None? <==> id !in old(db.vaults))
    ensures code.None? ==> VaultState(db.vaults[id], {Given(user, db.vaults[id].keyVersion)}) && ActiveOwners(db.vaults[id]) == db.vaults[id].members.Keys == {user}
  {
    CreateMeans(db.vaults, id, user, wrap);
    if id in db.vaults {
      return Some(Conflict);
    }
    db.vaults := db.vaults[id := Vault(user, Shared, false, 1, 0, 0, false, map[], map[])];
    var vault := db.vaults[id];
    db.vaults := db.vaults[id := vault.(members := vault.members[user := Member(Owner, Active, 1, Some(wrap), None)])];
    return None;
  }

  method InviteMember(db: Database, keyPairs: map<UserId, nat>, id: VaultId, actor: UserId, invitation: Invitation) returns (code: Option<Code>)
    modifies db`vaults
    ensures Did(old(db.vaults), db.vaults, id, code, Invite(old(db.vaults), keyPairs, id, actor, invitation))
    ensures Touched(old(db.vaults), db.vaults, id, code) && (code.None? <==> MayInvite(old(db.vaults), keyPairs, id, actor, invitation))
    ensures code.None? ==> OnlyRow(old(db.vaults)[id], db.vaults[id], invitation.invitee.value) && MayAccept(db.vaults, id, invitation.invitee.value, db.vaults[id].keyVersion)
  {
    InviteThenAccept(db.vaults, keyPairs, id, actor, invitation, invitation.keyVersion, invitation.box);
    var own := OwnMembership(db.vaults, id, actor);
    if own.Err? { return Some(own.error); }
    if own.value.status != Active { return Some(NotFound); }
    if !CanAssignRole(own.value.role, Manage) || !CanAssignRole(own.value.role, invitation.role) { return Some(Forbidden); }
    var vault := db.vaults[id];
    if vault.kind != Shared { return Some(Forbidden); }
    if vault.keyVersion != invitation.keyVersion { return Some(Conflict); }
    if invitation.invitee.None? { return Some(NotFound); }
    var invitee := invitation.invitee.value;
    if invitee == actor { return Some(BadRequest); }
    if !KeyPairIs(keyPairs, invitee, invitation.recipientKeyVersion) || !KeyPairIs(keyPairs, actor, invitation.senderKeyVersion) {
      return Some(PreconditionFailed);
    }
    if |vault.members| >= MAX_VAULT_MEMBERS { return Some(PreconditionFailed); }
    if invitee in vault.members { return Some(Conflict); }
    var seal := Seal(invitation.box, invitation.keyVersion, invitation.recipientKeyVersion, Some(actor), invitation.senderKeyVersion);
    var member := Member(invitation.role, Pending, invitation.keyVersion, None, Some(seal));
    db.vaults := db.vaults[id := vault.(members := vault.members[invitee := member])];
    return None;
  }

  method AcceptVaultKey(db: Database, id: VaultId, user: UserId, keyVersion: nat, wrap: Cipher) returns (code: Option<Code>)
    modifies db`vaults
    ensures Did(old(db.vaults), db.vaults, id, code, AcceptKey(old(db.vaults), id, user, keyVersion, wrap))
    ensures Touched(old(db.vaults), db.vaults, id, code) && (code.None? <==> MayAccept(old(db.vaults), id, user, keyVersion))
    ensures code.None? ==> OnlyRow(old(db.vaults)[id], db.vaults[id], user)
    ensures code.None? ==> db.vaults[id].members[user] == Member(old(db.vaults)[id].members[user].role, Active, keyVersion, Some(wrap), None)
  {
    var own := OwnMembership(db.vaults, id, user);
    if own.Err? { return Some(own.error); }
    var row := db.vaults[id].members[user];
    if row.seal.None? || row.seal.value.keyVersion != keyVersion { return Some(Conflict); }
    var accepted := row.(status := Active, keyVersion := keyVersion, wrap := Some(wrap), seal := None);
    db.vaults := db.vaults[id := db.vaults[id].(members := db.vaults[id].members[user := accepted])];
    return None;
  }

  /** Mark the vault for a rotation. */
  method RequireRotation(db: Database, id: VaultId)
    requires id in db.vaults
    modifies db`vaults
    ensures db.vaults == old(db.vaults)[id := old(db.vaults)[id].(rotationNeeded := true)]
  {
    db.vaults := db.vaults[id := db.vaults[id].(rotationNeeded := true)];
  }

  method DeleteMember(db: Database, id: VaultId, user: UserId)
    requires id in db.vaults
    modifies db`vaults
    ensures db.vaults == old(db.vaults)[id := old(db.vaults)[id].(members := old(db.vaults)[id].members - {user})]
  {
    db.vaults := db.vaults[id := db.vaults[id].(members := db.vaults[id].members - {user})];
  }

  method Decline(db: Database, id: VaultId, user: UserId) returns (code: Option<Code>)
    modifies db`vaults
    ensures Did(old(db.vaults), db.vaults, id, code, DeclineInvite(old(db.vaults), id, user))
    ensures Touched(old(db.vaults), db.vaults, id, code) && (code.None? <==> MayDecline(old(db.vaults), id, user))
    ensures code.None? ==> Departed(old(db.vaults)[id], db.vaults[id], user)
  {
    DeclineMeans(db.vaults, id, user);
    var own := OwnMembership(db.vaults, id, user);
    if own.Err? { return Some(own.error); }
    if own.value.status != Pending { return Some(NotFound); }
    DeleteMember(db, id, user);
    RequireRotation(db, id);
    return None;
  }

  method LeaveVault(db: Database, id: VaultId, user: UserId) returns (code: Option<Code>)
    modifies db`vaults
    ensures Did(old(db.vaults), db.vaults, id, code, Leave(old(db.vaults), id, user))
    ensures Touched(old(db.vaults), db.vaults, id, code) && (code.None? <==> MayLeave(old(db.vaults), id, user))
    ensures code.None? ==> Departed(old(db.vaults)[id], db.vaults[id], user) && (SomebodyOwns(old(db.vaults)[id]) ==> SomebodyOwns(db.vaults[id]))
  {
    LeaveMeans(db.vaults, id, user);
    var own := OwnMembership(db.vaults, id, user);
    if own.Err? { return Some(own.error); }
    if own.value.status != Active { return Some(NotFound); }
    if db.vaults[id].kind != Shared { return Some(Forbidden); }
    if own.value.role == Owner {
      var owners := ActiveOwners(db.vaults[id]);
      if |owners| <= 1 { return Some(PreconditionFailed); }
    }
    DeleteMember(db, id, user);
    RequireRotation(db, id);
    return None;
  }

  method Remove(db: Database, id: VaultId, actor: UserId, user: UserId) returns (code: Option<Code>)
    modifies db`vaults
    ensures Did(old(db.vaults), db.vaults, id, code, RemoveMember(old(db.vaults), id, actor, user))
    ensures Touched(old(db.vaults), db.vaults, id, code) && (code.None? <==> MayRemove(old(db.vaults), id, actor, user))
    ensures code.None? ==> Departed(old(db.vaults)[id], db.vaults[id], user) && (SomebodyOwns(old(db.vaults)[id]) ==> SomebodyOwns(db.vaults[id]))
  {
    RemoveMeans(db.vaults, id, actor, user);
    if user == actor { return Some(BadRequest); }
    var role := RequireVaultRole(db.vaults, id, actor, VAULT_MANAGE_ROLES);
    if role.Err? { return Some(role.error); }
    if user !in db.vaults[id].members { return Some(NotFound); }
    var target := db.vaults[id].members[user];
    if !CanAssignRole(role.value, target.role) { return Some(Forbidden); }
    DeleteMember(db, id, user);
    RequireRotation(db, id);
    return None;
  }

  method UpdateRole(db: Database, id: VaultId, user: UserId, role: Role)
    requires id in db.vaults && user in db.vaults[id].members
    modifies db`vaults
    ensures db.vaults == old(db.vaults)[id := old(db.vaults)[id].(members := old(db.vaults)[id].members[user := old(db.vaults)[id].members[user].(role := role)])]
  {
    var vault := db.vaults[id];
    db.vaults := db.vaults[id := vault.(members := vault.members[user := vault.members[user].(role := role)])];
  }

  method SetRole(db: Database, id: VaultId, actor: UserId, user: UserId, role: Role) returns (code: Option<Code>)
    modifies db`vaults
    ensures Did(old(db.vaults), db.vaults, id, code, SetMemberRole(old(db.vaults), id, actor, user, role))
    ensures Touched(old(db.vaults), db.vaults, id, code) && (code.None? <==> MaySetRole(old(db.vaults), id, actor, user, role))
    ensures code.None? ==> OnlyRow(old(db.vaults)[id], db.vaults[id], user) && db.vaults[id].members[user] == old(db.vaults)[id].members[user].(role := role)
    ensures code.None? ==> (SomebodyOwns(old(db.vaults)[id]) ==> SomebodyOwns(db.vaults[id]))
  {
    SetRoleMeans(db.vaults, id, actor, user, role);
    var own := RequireVaultRole(db.vaults, id, actor, VAULT_MANAGE_ROLES);
    if own.Err? { return Some(own.error); }
    if user !in db.vaults[id].members { return Some(NotFound); }
    var target := db.vaults[id].members[user];
    if !CanAssignRole(own.value, target.role) || !CanAssignRole(own.value, role) { return Some(Forbidden); }
    if target.role == Owner && target.status == Active && role != Owner {
      var owners := ActiveOwners(db.vaults[id]);
      if |owners| <= 1 { return Some(PreconditionFailed); }
    }
    UpdateRole(db, id, user, role);
    return None;
  }

  method Transfer(db: Database, id: VaultId, actor: UserId, user: UserId) returns (code: Option<Code>)
    modifies db`vaults
    ensures Did(old(db.vaults), db.vaults, id, code, TransferOwnership(old(db.vaults), id, actor, user))
    ensures Touched(old(db.vaults), db.vaults, id, code) && (code.None? <==> MayTransfer(old(db.vaults), id, actor, user))
    ensures code.None? ==> ActiveOwners(db.vaults[id]) == ActiveOwners(old(db.vaults)[id]) - {actor} + {user} && db.vaults[id].ownerId == user
    ensures code.None? ==> forall u :: u != actor && u != user ==> SameRow(old(db.vaults)[id].members, db.vaults[id].members, u)
  {
    TransferMeans(db.vaults, id, actor, user);
    if user == actor { return Some(BadRequest); }
    var own := OwnMembership(db.vaults, id, actor);
    if own.Err? { return Some(own.error); }
    if own.value.status != Active { return Some(NotFound); }
    if own.value.role != Owner || db.vaults[id].kind != Shared { return Some(Forbidden); }
    if user !in db.vaults[id].members { return Some(NotFound); }
    if db.vaults[id].members[user].status != Active { return Some(PreconditionFailed); }
    UpdateRole(db, id, user, Owner);
    UpdateRole(db, id, actor, Manage);
    db.vaults := db.vaults[id := db.vaults[id].(ownerId := user)];
    return None;
  }

  method Delete(db: Database, id: VaultId, actor: UserId) returns (code: Option<Code>)
    modifies db`vaults
    ensures Did(old(db.vaults), db.vaults, id, code, DeleteVault(old(db.vaults), id, actor))
    ensures Touched(old(db.vaults), db.vaults, id, code) && (code.None? <==> MayDelete(old(db.vaults), id, actor))
    ensures code.None? ==> db.vaults[id] == old(db.vaults)[id].(deleted := true)
  {
    DeletedForGood(db.vaults, map[], id, actor, Deleting(actor));
    var role := RequireVaultRole(db.vaults, id, actor, {Owner});
    if role.Err? { return Some(role.error); }
    if db.vaults[id].kind != Shared { return Some(Forbidden); }
    db.vaults := db.vaults[id := db.vaults[id].(deleted := true)];
    return None;
  }

  /** Rotate: version, flag and link first, then the caller's wrap, then one seal after the other. */
  method Rotate(db: Database, keyPairs: map<UserId, nat>, id: VaultId, actor: UserId, rotation: Rotation) returns (code: Option<Code>)
    modifies db`vaults
    ensures Did(old(db.vaults), db.vaults, id, code, RotateKey(old(db.vaults), keyPairs, id, actor, rotation))
    ensures Touched(old(db.vaults), db.vaults, id, code)
    ensures ValidRotation(rotation) && (id in old(db.vaults) ==> KeyState(old(db.vaults)[id])) ==>
              && (code.None? <==> MayRotate(old(db.vaults), keyPairs, id, actor, rotation))
              && (code.None? ==> KeyReplaced(old(db.vaults)[id], db.vaults[id], actor, rotation))
  {
    hide KeyState, MayRotate, KeyReplaced, ValidRotation;
    if ValidRotation(rotation) && (id in db.vaults ==> KeyState(db.vaults[id])) {
      RotateMeans(db.vaults, keyPairs, id, actor, rotation);
    }
    var role := RequireVaultRole(db.vaults, id, actor, VAULT_MANAGE_ROLES);
    if role.Err? { return Some(role.error); }
    var vault := db.vaults[id];
    if vault.members[actor].keyVersion != rotation.keyVersion - 1 { return Some(Conflict); }
    if !SealsMembers(vault, keyPairs, actor, rotation) { return Some(PreconditionFailed); }
    if vault.keyVersion != rotation.keyVersion - 1 || rotation.keyVersion - 1 in vault.links { return Some(Conflict); }
    var own := vault.members[actor].(keyVersion := rotation.keyVersion, wrap := Some(rotation.wrap));
    vault := vault.(keyVersion := rotation.keyVersion, rotationNeeded := false);
    vault := vault.(links := vault.links[rotation.keyVersion - 1 := rotation.link]);
    vault := vault.(members := vault.members[actor := own]);
    ghost var before := vault.members;
    for n := 0 to |rotation.memberKeys|
      invariant vault == Rotated(old(db.vaults)[id], actor, rotation).(members := SealMembers(before, actor, rotation, n))
    {
      var key := rotation.memberKeys[n];
      if key.userId in vault.members {
        var member := vault.members[key.userId];
        var seal := Seal(key.box, rotation.keyVersion, key.recipientKeyVersion, Some(actor), rotation.senderKeyVersion);
        if member.status == Active {
          member := member.(seal := Some(seal));
        } else {
          member := member.(keyVersion := rotation.keyVersion, seal := Some(seal));
        }
        vault := vault.(members := vault.members[key.userId := member]);
      }
    }
    db.vaults := db.vaults[id := vault];
    return None;
  }
}
