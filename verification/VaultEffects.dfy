/**
 * What the sharing procedures mean to their callers: exactly who may call them, what
 * changes and for whom, and how one call undoes, repeats or shuts out another.
 */
module VaultEffects {
  import opened Prelude
  import opened Crypto
  import opened Tables
  import opened Vaults
  import opened VaultRuns

  predicate Live(vaults: map<VaultId, Vault>, id: VaultId) {
    id in vaults && !vaults[id].deleted
  }

  predicate IsActive(vaults: map<VaultId, Vault>, id: VaultId, user: UserId) {
    Live(vaults, id) && user in vaults[id].members && vaults[id].members[user].status == Active
  }

  predicate IsManager(vaults: map<VaultId, Vault>, id: VaultId, user: UserId) {
    IsActive(vaults, id, user) && (vaults[id].members[user].role == Owner || vaults[id].members[user].role == Manage)
  }

  /** Nothing of the vault changed but this user's row. */
  ghost predicate OnlyRow(before: Vault, after: Vault, user: UserId) {
    && after == before.(members := after.members)
    && forall u :: u != user ==> SameRow(before.members, after.members, u)
  }

  predicate SameRow(before: map<UserId, Member>, after: map<UserId, Member>, u: UserId) {
    (u in after <==> u in before) && (u in before ==> after[u] == before[u])
  }

  /** The user is gone, everyone else as before, and a rotation is due. */
  ghost predicate Departed(before: Vault, after: Vault, user: UserId) {
    && user !in after.members && after.rotationNeeded
    && OnlyRow(before.(rotationNeeded := true), after, user)
    && ActiveOwners(after) == ActiveOwners(before) - {user}
  }

  /** Some other active member is an owner. */
  predicate OwnedWithout(vault: Vault, user: UserId) {
    exists u :: u in vault.members && u != user && vault.members[u].role == Owner && vault.members[u].status == Active
  }

  /** Somebody active owns the vault. */
  predicate SomebodyOwns(vault: Vault) {
    exists u :: u in vault.members && vault.members[u].role == Owner && vault.members[u].status == Active
  }

  lemma {:induction false} OwnersAre(vault: Vault)
    ensures forall u :: u in ActiveOwners(vault) <==> u in vault.members && vault.members[u].role == Owner && vault.members[u].status == Active
    ensures ActiveOwners(vault) != {} <==> SomebodyOwns(vault)
  {
    if SomebodyOwns(vault) {
      var u :| u in vault.members && vault.members[u].role == Owner && vault.members[u].status == Active;
      assert u in ActiveOwners(vault);
    }
    var owners := ActiveOwners(vault);
    if !SomebodyOwns(vault) {
      assert forall u :: u !in owners;
      assert owners == {};
    }
  }

  /** What a role may give, or touch in others: an owner all, a manager all but owners. */
  predicate MayGive(actor: Role, role: Role) {
    match actor
    case Owner => true
    case Manage => role != Owner
    case _ => false
  }

  lemma {:induction false} OwnersBeside(vault: Vault, user: UserId)
    requires user in ActiveOwners(vault)
    ensures |ActiveOwners(vault)| <= 1 <==> !OwnedWithout(vault, user)
  {
    var owners := ActiveOwners(vault);
    if OwnedWithout(vault, user) {
      var u :| u in vault.members && u != user && vault.members[u].role == Owner && vault.members[u].status == Active;
      SubsetSize({user, u}, owners);
    } else {
      forall u | u in owners
        ensures u in {user}
      {
        assert u != user ==> OwnedWithout(vault, user);
      }
      SubsetSize(owners, {user});
    }
  }

  // ---- Creating, inviting, accepting ----

  /** A vault nobody has done anything in: live, empty, its key given to its owner alone, who is its only member. */
  ghost predicate Fresh(vault: Vault, kind: Kind, user: UserId, keyVersion: nat, wrap: Cipher, links: map<nat, Cipher>) {
    && !vault.deleted && !vault.rotationNeeded && vault.lastSeq == 0 && vault.usedBytes == 0
    && vault.kind == kind && vault.ownerId == user && vault.keyVersion == keyVersion && vault.links == links
    && (forall u :: u in vault.members <==> u == user)
    && var own := vault.members[user];
       own.role == Owner && own.status == Active && own.keyVersion == keyVersion && own.wrap == Some(wrap) && own.seal.None?
  }

  /** A new vault is its creator's: the only member, an owner, who alone was given its key. */
  lemma {:induction false} CreateMeans(vaults: map<VaultId, Vault>, id: VaultId, user: UserId, wrap: Cipher)
    ensures var outcome := Create(vaults, id, user, wrap);
            && (outcome.Ok? <==> id !in vaults)
            && (outcome.Ok? ==> VaultState(outcome.value, {Given(user, 1)}) && Fresh(outcome.value, Shared, user, 1, wrap, map[]))
  {
    var after := NewVault(user, wrap);
    assert MemberState(after, after.members[user]);
    assert user in ActiveOwners(after);
  }

  /** So is one sent along with a registration, of either kind and with the keys it had on the device. */
  lemma {:induction false} RegisterMeans(vaults: map<VaultId, Vault>, id: VaultId, user: UserId, upload: Upload)
    requires ValidUpload(upload)
    ensures var outcome := Register(vaults, id, user, upload);
            && (outcome.Ok? <==> id !in vaults)
            && (outcome.Ok? ==>
                  && VaultState(outcome.value, {Given(user, upload.keyVersion)})
                  && Fresh(outcome.value, upload.kind, user, upload.keyVersion, upload.wrap, upload.links))
  {
    var after := RegisteredVault(user, upload);
    assert MemberState(after, after.members[user]);
    assert user in ActiveOwners(after);
  }

  /** A manager or owner invites somebody new, below or at their own level, with the current key. */
  predicate MayInvite(vaults: map<VaultId, Vault>, keyPairs: map<UserId, nat>, id: VaultId, actor: UserId, invitation: Invitation) {
    && IsManager(vaults, id, actor) && vaults[id].kind == Shared
    && MayGive(vaults[id].members[actor].role, invitation.role)
    && invitation.keyVersion == vaults[id].keyVersion
    && invitation.invitee.Some? && invitation.invitee.value !in vaults[id].members
    && invitation.invitee.value in keyPairs && keyPairs[invitation.invitee.value] == invitation.recipientKeyVersion
    && actor in keyPairs && keyPairs[actor] == invitation.senderKeyVersion
    && |vaults[id].members| < MAX_VAULT_MEMBERS
  }

  /**
   * An invite that went through: nobody else's row changes, the invitee accepts exactly
   * the vault's key version, once, and is then a member with the invited role at the
   * current key.
   */
  lemma {:induction false} InviteThenAccept(vaults: map<VaultId, Vault>, keyPairs: map<UserId, nat>, id: VaultId, actor: UserId, invitation: Invitation, keyVersion: nat, wrap: Cipher)
    ensures var invited := Invite(vaults, keyPairs, id, actor, invitation);
            && (invited.Ok? <==> MayInvite(vaults, keyPairs, id, actor, invitation))
            && (invited.Ok? ==>
                  var user := invitation.invitee.value;
                  var accepted := AcceptKey(Written(vaults, id, invited), id, user, keyVersion, wrap);
                  && OnlyRow(vaults[id], invited.value, user)
                  && invited.value.members[user] ==
                     Member(invitation.role, Pending, vaults[id].keyVersion, None,
                            Some(Seal(invitation.box, vaults[id].keyVersion, invitation.recipientKeyVersion, Some(actor), invitation.senderKeyVersion)))
                  && (accepted.Ok? <==> keyVersion == vaults[id].keyVersion)
                  && (accepted.Ok? ==>
                        && OnlyRow(vaults[id], accepted.value, user)
                        && accepted.value.members[user] == Member(invitation.role, Active, vaults[id].keyVersion, Some(wrap), None)))
  {
  }

  /** Declining, or being taken off by the inviter, undoes an invite; the key is due for a rotation since they were sent it. */
  lemma {:induction false} InviteUndone(vaults: map<VaultId, Vault>, keyPairs: map<UserId, nat>, id: VaultId, actor: UserId, invitation: Invitation)
    requires Invite(vaults, keyPairs, id, actor, invitation).Ok?
    ensures var invited := Written(vaults, id, Invite(vaults, keyPairs, id, actor, invitation));
            var user := invitation.invitee.value;
            && DeclineInvite(invited, id, user) == Ok(vaults[id].(rotationNeeded := true))
            && RemoveMember(invited, id, actor, user) == Ok(vaults[id].(rotationNeeded := true))
            && Leave(invited, id, user) == Err(NotFound)
  {
    var vault := vaults[id];
    var members := vault.members[invitation.invitee.value := Invitee(actor, invitation)];
    assert members - {invitation.invitee.value} == vault.members;
  }

  predicate MayAccept(vaults: map<VaultId, Vault>, id: VaultId, user: UserId, keyVersion: nat) {
    && Live(vaults, id) && user in vaults[id].members
    && vaults[id].members[user].seal.Some? && vaults[id].members[user].seal.value.keyVersion == keyVersion
  }

  /** What a user with a seal sent to them may accept is the current version, once; they keep their role. */
  lemma {:induction false} AcceptOnce(vaults: map<VaultId, Vault>, id: VaultId, user: UserId, keyVersion: nat, wrap: Cipher, againVersion: nat, again: Cipher)
    requires id in vaults ==> KeyState(vaults[id])
    ensures var accepted := AcceptKey(vaults, id, user, keyVersion, wrap);
            && (accepted.Ok? <==> MayAccept(vaults, id, user, keyVersion))
            && (accepted.Ok? ==>
                  && keyVersion == vaults[id].keyVersion
                  && OnlyRow(vaults[id], accepted.value, user)
                  && accepted.value.members[user] == Member(vaults[id].members[user].role, Active, keyVersion, Some(wrap), None)
                  && AcceptKey(Written(vaults, id, accepted), id, user, againVersion, again) == Err(Conflict))
  {
    if id in vaults && user in vaults[id].members {
      assert MemberState(vaults[id], vaults[id].members[user]);
    }
  }

  // ---- Going ----

  predicate MayDecline(vaults: map<VaultId, Vault>, id: VaultId, user: UserId) {
    Live(vaults, id) && user in vaults[id].members && vaults[id].members[user].status == Pending
  }

  lemma {:induction false} DeclineMeans(vaults: map<VaultId, Vault>, id: VaultId, user: UserId)
    ensures var outcome := DeclineInvite(vaults, id, user);
            && (outcome.Ok? <==> MayDecline(vaults, id, user))
            && (outcome.Ok? ==> Departed(vaults[id], outcome.value, user))
  {
  }

  /** What going leaves; an owner stays when there is another, or the one who goes is none. */
  lemma {:induction false} WithoutMeans(vault: Vault, user: UserId)
    requires user in vault.members
    ensures Departed(vault, Without(vault, user), user)
    ensures SomebodyOwns(vault) && (vault.members[user].role == Owner && vault.members[user].status == Active ==> OwnedWithout(vault, user)) ==>
              SomebodyOwns(Without(vault, user))
  {
    var after := Without(vault, user);
    if u :| u in vault.members && u != user && vault.members[u].role == Owner && vault.members[u].status == Active {
      assert u in after.members;
    }
    assert ActiveOwners(after) == ActiveOwners(vault) - {user};
  }

  predicate MayLeave(vaults: map<VaultId, Vault>, id: VaultId, user: UserId) {
    && IsActive(vaults, id, user) && vaults[id].kind == Shared
    && (vaults[id].members[user].role == Owner ==> OwnedWithout(vaults[id], user))
  }

  /** An active member may leave a shared vault unless they are its last owner; an owner stays behind. */
  lemma {:induction false} LeaveMeans(vaults: map<VaultId, Vault>, id: VaultId, user: UserId)
    ensures var outcome := Leave(vaults, id, user);
            && (outcome.Ok? <==> MayLeave(vaults, id, user))
            && (outcome.Ok? ==>
                  && Departed(vaults[id], outcome.value, user)
                  && (SomebodyOwns(vaults[id]) ==> SomebodyOwns(outcome.value)))
  {
    hide Departed, SomebodyOwns, OwnedWithout, Without;
    if IsActive(vaults, id, user) && vaults[id].members[user].role == Owner {
      OwnersBeside(vaults[id], user);
    }
    if Leave(vaults, id, user).Ok? {
      WithoutMeans(vaults[id], user);
    }
  }

  predicate MayRemove(vaults: map<VaultId, Vault>, id: VaultId, actor: UserId, user: UserId) {
    && user != actor && IsManager(vaults, id, actor) && user in vaults[id].members
    && (vaults[id].members[user].role == Owner ==> vaults[id].members[actor].role == Owner)
  }

  /** An owner removes anybody else, a manager anybody but owners; an owner stays. */
  lemma {:induction false} RemoveMeans(vaults: map<VaultId, Vault>, id: VaultId, actor: UserId, user: UserId)
    ensures var outcome := RemoveMember(vaults, id, actor, user);
            && (outcome.Ok? <==> MayRemove(vaults, id, actor, user))
            && (outcome.Ok? ==>
                  && Departed(vaults[id], outcome.value, user)
                  && (SomebodyOwns(vaults[id]) ==> SomebodyOwns(outcome.value)))
  {
    hide Departed, SomebodyOwns, Without;
    if RemoveMember(vaults, id, actor, user).Ok? {
      WithoutMeans(vaults[id], user);
      assert vaults[id].members[user].role == Owner ==> OwnedWithout(vaults[id], user);
    }
  }

  // ---- Roles ----

  predicate MaySetRole(vaults: map<VaultId, Vault>, id: VaultId, actor: UserId, user: UserId, role: Role) {
    && IsManager(vaults, id, actor) && user in vaults[id].members
    && MayGive(vaults[id].members[actor].role, vaults[id].members[user].role)
    && MayGive(vaults[id].members[actor].role, role)
    && (vaults[id].members[user].role == Owner && vaults[id].members[user].status == Active && role != Owner ==> OwnedWithout(vaults[id], user))
  }

  /** A role changes for that user alone, an owner stays, and whoever changed another's role can set it back. */
  lemma {:induction false} SetRoleMeans(vaults: map<VaultId, Vault>, id: VaultId, actor: UserId, user: UserId, role: Role)
    ensures var outcome := SetMemberRole(vaults, id, actor, user, role);
            && (outcome.Ok? <==> MaySetRole(vaults, id, actor, user, role))
            && (outcome.Ok? ==>
                  && OnlyRow(vaults[id], outcome.value, user)
                  && outcome.value.members[user] == vaults[id].members[user].(role := role)
                  && (SomebodyOwns(vaults[id]) ==> SomebodyOwns(outcome.value))
                  && (actor != user ==>
                        SetMemberRole(Written(vaults, id, outcome), id, actor, user, vaults[id].members[user].role) == Ok(vaults[id])))
  {
    hide OwnedWithout, OnlyRow, SomebodyOwns, SetMemberRole;
    RoleGuard(vaults, id, actor, user, role);
    if SetMemberRole(vaults, id, actor, user, role).Ok? {
      OwnerStays(vaults, id, actor, user, role);
      RoleRow(vaults, id, actor, user, role);
      if actor != user {
        RoleReversible(vaults, id, actor, user, role);
      }
    }
  }

  lemma {:induction false} RoleGuard(vaults: map<VaultId, Vault>, id: VaultId, actor: UserId, user: UserId, role: Role)
    ensures SetMemberRole(vaults, id, actor, user, role).Ok? <==> MaySetRole(vaults, id, actor, user, role)
  {
    hide OwnedWithout;
    if Live(vaults, id) && user in ActiveOwners(vaults[id]) {
      OwnersBeside(vaults[id], user);
    }
  }

  lemma {:induction false} OwnerStays(vaults: map<VaultId, Vault>, id: VaultId, actor: UserId, user: UserId, role: Role)
    requires SetMemberRole(vaults, id, actor, user, role).Ok?
    ensures id in vaults && (SomebodyOwns(vaults[id]) ==> SomebodyOwns(SetMemberRole(vaults, id, actor, user, role).value))
  {
    RoleRow(vaults, id, actor, user, role);
    hide SomebodyOwns, SetMemberRole;
    OwnersAre(vaults[id]);
    if ActiveOwners(vaults[id]) != {} {
      OwnerAfterRole(vaults, id, actor, user, role);
      OwnersAre(SetMemberRole(vaults, id, actor, user, role).value);
    }
  }

  lemma {:induction false} OwnerAfterRole(vaults: map<VaultId, Vault>, id: VaultId, actor: UserId, user: UserId, role: Role)
    requires SetMemberRole(vaults, id, actor, user, role).Ok? && HasOwner(vaults[id])
    ensures ActiveOwners(SetMemberRole(vaults, id, actor, user, role).value) != {}
  {
    StepKeepsOwner(vaults, map[], id, SettingRole(actor, user, role));
    hide ActiveOwners;
    assert !SetMemberRole(vaults, id, actor, user, role).value.deleted;
  }

  lemma {:induction false} RoleRow(vaults: map<VaultId, Vault>, id: VaultId, actor: UserId, user: UserId, role: Role)
    requires SetMemberRole(vaults, id, actor, user, role).Ok?
    ensures var after := SetMemberRole(vaults, id, actor, user, role).value;
            && id in vaults && user in vaults[id].members
            && OnlyRow(vaults[id], after, user)
            && after == vaults[id].(members := vaults[id].members[user := vaults[id].members[user].(role := role)])
  {
    hide ActiveOwners;
  }

  lemma {:induction false} RoleReversible(vaults: map<VaultId, Vault>, id: VaultId, actor: UserId, user: UserId, role: Role)
    requires SetMemberRole(vaults, id, actor, user, role).Ok? && actor != user
    ensures var outcome := SetMemberRole(vaults, id, actor, user, role);
            SetMemberRole(Written(vaults, id, outcome), id, actor, user, vaults[id].members[user].role) == Ok(vaults[id])
  {
    RoleRow(vaults, id, actor, user, role);
    RoleSetBack(vaults[id], SetMemberRole(vaults, id, actor, user, role).value, actor, user);
    hide OnlyRow;
  }

  /** After an owner made somebody an owner there are two. */
  lemma {:induction false} RoleSetBack(before: Vault, after: Vault, actor: UserId, user: UserId)
    requires actor != user && user in before.members && user in after.members
    requires after == before.(members := before.members[user := before.members[user].(role := after.members[user].role)])
    ensures actor in ActiveOwners(after) && user in ActiveOwners(after) ==> |ActiveOwners(after)| > 1
    ensures before == after.(members := after.members[user := after.members[user].(role := before.members[user].role)])
  {
    if actor in ActiveOwners(after) && user in ActiveOwners(after) {
      SubsetSize({actor, user}, ActiveOwners(after));
    }
    assert after.members[user := after.members[user].(role := before.members[user].role)] == before.members;
  }

  predicate MayTransfer(vaults: map<VaultId, Vault>, id: VaultId, actor: UserId, user: UserId) {
    && user != actor && IsActive(vaults, id, actor) && IsActive(vaults, id, user)
    && vaults[id].members[actor].role == Owner && vaults[id].kind == Shared
  }

  /**
   * An active owner hands over to another active member, who alone takes their place among
   * the owners; nobody else changes, and the new owner can hand it back.
   */
  lemma {:induction false} TransferMeans(vaults: map<VaultId, Vault>, id: VaultId, actor: UserId, user: UserId)
    ensures var outcome := TransferOwnership(vaults, id, actor, user);
            && (outcome.Ok? <==> MayTransfer(vaults, id, actor, user))
            && (outcome.Ok? ==>
                  && ActiveOwners(outcome.value) == ActiveOwners(vaults[id]) - {actor} + {user}
                  && outcome.value.ownerId == user
                  && outcome.value.members[actor].role == Manage
                  && outcome.value == vaults[id].(ownerId := user, members := outcome.value.members)
                  && (forall u :: u != actor && u != user ==> SameRow(vaults[id].members, outcome.value.members, u))
                  && TransferOwnership(Written(vaults, id, outcome), id, user, actor) ==
                     Ok(vaults[id].(ownerId := actor, members := vaults[id].members[user := vaults[id].members[user].(role := Manage)])))
  {
    var outcome := TransferOwnership(vaults, id, actor, user);
    if outcome.Ok? {
      var vault := vaults[id];
      var members := outcome.value.members;
      var back := members[actor := members[actor].(role := Owner)][user := members[user].(role := Manage)];
      assert back == vault.members[user := vault.members[user].(role := Manage)];
    }
  }

  // ---- Rotating ----

  /**
   * A manager or owner who holds the current key rotates it to the next version, sealed to
   * exactly the other members and invitees, each to their current keypair from the caller's.
   */
  ghost predicate MayRotate(vaults: map<VaultId, Vault>, keyPairs: map<UserId, nat>, id: VaultId, actor: UserId, rotation: Rotation) {
    && IsManager(vaults, id, actor)
    && rotation.keyVersion - 1 == vaults[id].keyVersion == vaults[id].members[actor].keyVersion
    && SealedToAll(vaults[id], keyPairs, actor, rotation)
  }

  /** The seals are for exactly the other members, each to their current keypair, from the caller's current one. */
  ghost predicate SealedToAll(vault: Vault, keyPairs: map<UserId, nat>, actor: UserId, rotation: Rotation) {
    && SealedUsers(rotation.memberKeys) == vault.members.Keys - {actor}
    && (forall i :: 0 <= i < |rotation.memberKeys| ==>
          rotation.memberKeys[i].userId in keyPairs && keyPairs[rotation.memberKeys[i].userId] == rotation.memberKeys[i].recipientKeyVersion)
    && actor in keyPairs && keyPairs[actor] == rotation.senderKeyVersion
  }

  lemma {:induction false} SealsReachAll(vault: Vault, keyPairs: map<UserId, nat>, actor: UserId, rotation: Rotation)
    requires ValidRotation(rotation) && SealsMembers(vault, keyPairs, actor, rotation)
    ensures SealedToAll(vault, keyPairs, actor, rotation)
  {
    var keys := rotation.memberKeys;
    SealsExactly(vault, keyPairs, actor, rotation);
    forall i | 0 <= i < |keys|
      ensures KeyPairIs(keyPairs, keys[i].userId, keys[i].recipientKeyVersion)
    {
      var u := keys[i].userId;
      assert u in SealedUsers(keys);
      assert SealedFor(rotation, u, keyPairs[u]);
    }
  }

  lemma {:induction false} AllReached(vault: Vault, keyPairs: map<UserId, nat>, actor: UserId, rotation: Rotation)
    requires ValidRotation(rotation) && SealedToAll(vault, keyPairs, actor, rotation)
    ensures SealsMembers(vault, keyPairs, actor, rotation)
  {
    var keys := rotation.memberKeys;
    DistinctCount(keys);
    hide ValidRotation;
    forall u | u in vault.members && u != actor
      ensures u in keyPairs && SealedFor(rotation, u, keyPairs[u])
    {
      assert u in SealedUsers(keys);
      var i :| 0 <= i < |keys| && keys[i].userId == u;
      assert KeyPairIs(keyPairs, keys[i].userId, keys[i].recipientKeyVersion);
    }
  }

  /** Counting the seals and finding one for everyone comes to the same. */
  lemma {:induction false} SealsMean(vault: Vault, keyPairs: map<UserId, nat>, actor: UserId, rotation: Rotation)
    requires ValidRotation(rotation)
    ensures SealsMembers(vault, keyPairs, actor, rotation) <==> SealedToAll(vault, keyPairs, actor, rotation)
  {
    hide *;
    if SealsMembers(vault, keyPairs, actor, rotation) {
      SealsReachAll(vault, keyPairs, actor, rotation);
    }
    if SealedToAll(vault, keyPairs, actor, rotation) {
      AllReached(vault, keyPairs, actor, rotation);
    }
  }

  /** After a rotation a member is who they were, and has the new key wrapped or sealed to them. */
  predicate HasNewKey(before: Member, after: Member, rotation: Rotation, isActor: bool, actor: UserId) {
    && after.role == before.role && after.status == before.status
    && (isActor ==> after.keyVersion == rotation.keyVersion && after.wrap == Some(rotation.wrap) && after.seal == before.seal)
    && (!isActor ==> after.seal.Some? && after.seal.value.keyVersion == rotation.keyVersion && after.seal.value.sealedBy == Some(actor)
                     && after.wrap == before.wrap)
  }

  /** The version is one up, with a link down, no rotation is due, and everyone still there has the new key. */
  ghost predicate KeyReplaced(before: Vault, after: Vault, actor: UserId, rotation: Rotation) {
    && after == before.(keyVersion := before.keyVersion + 1, rotationNeeded := false, links := after.links, members := after.members)
    && after.links == before.links[before.keyVersion := rotation.link]
    && after.members.Keys == before.members.Keys
    && forall u :: u in before.members ==> HasNewKey(before.members[u], after.members[u], rotation, u == actor, actor)
  }

  lemma {:induction false} RotatedMeans(vault: Vault, keyPairs: map<UserId, nat>, actor: UserId, rotation: Rotation)
    requires ValidRotation(rotation) && actor in vault.members && SealsMembers(vault, keyPairs, actor, rotation)
    requires rotation.keyVersion == vault.keyVersion + 1
    ensures KeyReplaced(vault, Rotated(vault, actor, rotation), actor, rotation)
  {
    hide SealsMembers, SealMembers;
    var after := Rotated(vault, actor, rotation);
    forall u | u in vault.members
      ensures u in after.members && HasNewKey(vault.members[u], after.members[u], rotation, u == actor, actor)
    {
      RotatedMember(vault, keyPairs, actor, rotation, u);
    }
  }

  lemma {:induction false} AtLeastTwo(rotation: Rotation)
    requires ValidRotation(rotation)
    ensures rotation.keyVersion >= 2
  {
  }

  /** Exactly when a rotation goes through, and what it leaves. */
  lemma {:induction false} RotateMeans(vaults: map<VaultId, Vault>, keyPairs: map<UserId, nat>, id: VaultId, actor: UserId, rotation: Rotation)
    requires ValidRotation(rotation) && (id in vaults ==> KeyState(vaults[id]))
    ensures var outcome := RotateKey(vaults, keyPairs, id, actor, rotation);
            && (outcome.Ok? <==> MayRotate(vaults, keyPairs, id, actor, rotation))
            && (outcome.Ok? ==> KeyReplaced(vaults[id], outcome.value, actor, rotation))
  {
    hide SealsMembers, SealedToAll, MemberState, Rotated, ValidRotation, KeyReplaced;
    AtLeastTwo(rotation);
    if IsManager(vaults, id, actor) {
      SealsMean(vaults[id], keyPairs, actor, rotation);
    }
    if RotateKey(vaults, keyPairs, id, actor, rotation).Ok? {
      RotatedMeans(vaults[id], keyPairs, actor, rotation);
    }
  }

  // ---- Who is shut out ----

  /** The caller of an action on an existing vault. */
  function CallerOf(action: Action): UserId {
    match action
    case Registering(user, _) => user
    case Creating(user, _) => user
    case Inviting(actor, _) => actor
    case Accepting(user, _, _) => user
    case Declining(user) => user
    case Leaving(user) => user
    case Removing(actor, _) => actor
    case SettingRole(actor, _, _) => actor
    case Transferring(actor, _) => actor
    case Rotating(actor, _) => actor
    case Deleting(actor) => actor
  }

  /** On an existing vault nobody does anything who is not in it, and on a deleted one nobody at all. */
  lemma {:induction false} ShutOut(vaults: map<VaultId, Vault>, keyPairs: map<UserId, nat>, id: VaultId, action: Action)
    requires id in vaults && (vaults[id].deleted || CallerOf(action) !in vaults[id].members)
    ensures OutcomeOf(vaults, keyPairs, id, action).Err?
  {
    hide SealsMembers, KeyPairIs;
  }

  predicate MayDelete(vaults: map<VaultId, Vault>, id: VaultId, actor: UserId) {
    IsActive(vaults, id, actor) && vaults[id].members[actor].role == Owner && vaults[id].kind == Shared
  }

  /** An active owner deletes a shared vault, and from then on every call on it is refused. */
  lemma {:induction false} DeletedForGood(vaults: map<VaultId, Vault>, keyPairs: map<UserId, nat>, id: VaultId, actor: UserId, action: Action)
    ensures var outcome := DeleteVault(vaults, id, actor);
            && (outcome.Ok? <==> MayDelete(vaults, id, actor))
            && (outcome.Ok? ==> outcome.value == vaults[id].(deleted := true) && OutcomeOf(Written(vaults, id, outcome), keyPairs, id, action).Err?)
  {
    hide OutcomeOf;
    var outcome := DeleteVault(vaults, id, actor);
    if outcome.Ok? {
      ShutOut(Written(vaults, id, outcome), keyPairs, id, action);
    }
  }

  /** Who declined, left or was removed can do nothing on the vault any more. */
  lemma {:induction false} GoneAreShutOut(vaults: map<VaultId, Vault>, keyPairs: map<UserId, nat>, id: VaultId, going: Action, user: UserId, action: Action)
    requires going == Declining(user) || going == Leaving(user) || (going.Removing? && going.user == user)
    requires OutcomeOf(vaults, keyPairs, id, going).Ok? && CallerOf(action) == user
    ensures OutcomeOf(Written(vaults, id, OutcomeOf(vaults, keyPairs, id, going)), keyPairs, id, action).Err?
  {
    var outcome := OutcomeOf(vaults, keyPairs, id, going);
    assert user !in outcome.value.members;
    hide OutcomeOf;
    ShutOut(Written(vaults, id, outcome), keyPairs, id, action);
  }
}
