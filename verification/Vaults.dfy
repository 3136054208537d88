/**
 * The sharing procedures as rules on one vault: what each checks, in which order, and
 * the vault it leaves. `VaultServer` holds the procedures themselves.
 */
module Vaults {
  import opened Prelude
  import opened Crypto
  import opened Tables

  const MAX_VAULT_MEMBERS: nat := 256
  const MAX_VAULT_KEY_VERSION: nat := 256

  datatype Code = NotFound | Forbidden | Conflict | PreconditionFailed | BadRequest

  /** Whether `actor` may give `role`, or touch a member who has it. */
  predicate CanAssignRole(actor: Role, role: Role) {
    actor == Owner || (actor == Manage && role != Owner)
  }

  /** The caller's row of a live vault, any status. */
  function OwnMembership(vaults: map<VaultId, Vault>, id: VaultId, user: UserId): Result<Member, Code> {
    if id !in vaults || vaults[id].deleted || user !in vaults[id].members then Err(NotFound) else Ok(vaults[id].members[user])
  }

  /** The caller's role as an active member of a live vault, when it is an allowed one. */
  function RequireVaultRole(vaults: map<VaultId, Vault>, id: VaultId, user: UserId, allowed: set<Role>): Result<Role, Code> {
    var own := OwnMembership(vaults, id, user);
    if own.Err? || own.value.status != Active then Err(NotFound)
    else if own.value.role !in allowed then Err(Forbidden)
    else Ok(own.value.role)
  }

  function ActiveOwners(vault: Vault): set<UserId> {
    set u | u in vault.members && vault.members[u].role == Owner && vault.members[u].status == Active
  }

  /** The vaults with one of them replaced, or as they were after a refusal. */
  function Written(vaults: map<VaultId, Vault>, id: VaultId, outcome: Result<Vault, Code>): map<VaultId, Vault> {
    if outcome.Ok? then vaults[id := outcome.value] else vaults
  }

  function CodeOf(outcome: Result<Vault, Code>): Option<Code> {
    if outcome.Ok? then None else Some(outcome.error)
  }

  // ---- Creating ----

  function NewVault(user: UserId, wrap: Cipher): Vault {
    Vault(user, Shared, false, 1, 0, 0, false, map[user := Member(Owner, Active, 1, Some(wrap), None)], map[])
  }

  function Create(vaults: map<VaultId, Vault>, id: VaultId, user: UserId, wrap: Cipher): Result<Vault, Code> {
    if id in vaults then Err(Conflict) else Ok(NewVault(user, wrap))
  }

  /** A vault sent along with a registration: the personal one, or a local vault with all its keys under their successors. */
  datatype Upload = Upload(kind: Kind, keyVersion: nat, wrap: Cipher, links: map<nat, Cipher>)

  /** What the schema lets through: a complete key chain. */
  ghost predicate ValidUpload(upload: Upload) {
    && 1 <= upload.keyVersion <= MAX_VAULT_KEY_VERSION
    && forall v :: v in upload.links <==> 1 <= v < upload.keyVersion
  }

  function RegisteredVault(user: UserId, upload: Upload): Vault {
    Vault(user, upload.kind, false, upload.keyVersion, 0, 0, false,
          map[user := Member(Owner, Active, upload.keyVersion, Some(upload.wrap), None)], upload.links)
  }

  function Register(vaults: map<VaultId, Vault>, id: VaultId, user: UserId, upload: Upload): Result<Vault, Code> {
    if id in vaults then Err(BadRequest) else Ok(RegisteredVault(user, upload))
  }

  // ---- Inviting ----

  /** An invite as sent: `invitee` is the account found for the email, if there is one. */
  datatype Invitation = Invitation(role: Role, keyVersion: nat, invitee: Option<UserId>, box: Cipher, recipientKeyVersion: nat, senderKeyVersion: nat)

  function Invitee(actor: UserId, invitation: Invitation): Member {
    Member(invitation.role, Pending, invitation.keyVersion, None,
           Some(Seal(invitation.box, invitation.keyVersion, invitation.recipientKeyVersion, Some(actor), invitation.senderKeyVersion)))
  }

  predicate KeyPairIs(keyPairs: map<UserId, nat>, user: UserId, keyVersion: nat) {
    user in keyPairs && keyPairs[user] == keyVersion
  }

  function Invite(vaults: map<VaultId, Vault>, keyPairs: map<UserId, nat>, id: VaultId, actor: UserId, invitation: Invitation): Result<Vault, Code> {
    var own := OwnMembership(vaults, id, actor);
    if own.Err? || own.value.status != Active then Err(NotFound)
    else if !CanAssignRole(own.value.role, Manage) || !CanAssignRole(own.value.role, invitation.role) then Err(Forbidden)
    else
      var vault := vaults[id];
      if vault.kind != Shared then Err(Forbidden)
      else if vault.keyVersion != invitation.keyVersion then Err(Conflict)
      else if invitation.invitee.None? then Err(NotFound)
      else
        var invitee := invitation.invitee.value;
        if invitee == actor then Err(BadRequest)
        else if !KeyPairIs(keyPairs, invitee, invitation.recipientKeyVersion) || !KeyPairIs(keyPairs, actor, invitation.senderKeyVersion) then Err(PreconditionFailed)
        else if |vault.members| >= MAX_VAULT_MEMBERS then Err(PreconditionFailed)
        else if invitee in vault.members then Err(Conflict)
        else Ok(vault.(members := vault.members[invitee := Invitee(actor, invitation)]))
  }

  // ---- Accepting and leaving ----

  function AcceptKey(vaults: map<VaultId, Vault>, id: VaultId, user: UserId, keyVersion: nat, wrap: Cipher): Result<Vault, Code> {
    var own := OwnMembership(vaults, id, user);
    if own.Err? then Err(NotFound)
    else if own.value.seal.None? || own.value.seal.value.keyVersion != keyVersion then Err(Conflict)
    else
      var vault := vaults[id];
      Ok(vault.(members := vault.members[user := Member(own.value.role, Active, keyVersion, Some(wrap), None)]))
  }

  /** A vault without a member who knows its current key: it needs a rotation. */
  function Without(vault: Vault, user: UserId): Vault {
    vault.(members := vault.members - {user}, rotationNeeded := true)
  }

  function DeclineInvite(vaults: map<VaultId, Vault>, id: VaultId, user: UserId): Result<Vault, Code> {
    var own := OwnMembership(vaults, id, user);
    if own.Err? || own.value.status != Pending then Err(NotFound) else Ok(Without(vaults[id], user))
  }

  function Leave(vaults: map<VaultId, Vault>, id: VaultId, user: UserId): Result<Vault, Code> {
    var own := OwnMembership(vaults, id, user);
    if own.Err? || own.value.status != Active then Err(NotFound)
    else if vaults[id].kind != Shared then Err(Forbidden)
    else if own.value.role == Owner && |ActiveOwners(vaults[id])| <= 1 then Err(PreconditionFailed)
    else Ok(Without(vaults[id], user))
  }

  function RemoveMember(vaults: map<VaultId, Vault>, id: VaultId, actor: UserId, user: UserId): Result<Vault, Code> {
    if user == actor then Err(BadRequest)
    else
      var role := RequireVaultRole(vaults, id, actor, VAULT_MANAGE_ROLES);
      if role.Err? then Err(role.error)
      else if user !in vaults[id].members then Err(NotFound)
      else if !CanAssignRole(role.value, vaults[id].members[user].role) then Err(Forbidden)
      else Ok(Without(vaults[id], user))
  }

  // ---- Roles ----

  function SetMemberRole(vaults: map<VaultId, Vault>, id: VaultId, actor: UserId, user: UserId, role: Role): Result<Vault, Code> {
    var own := RequireVaultRole(vaults, id, actor, VAULT_MANAGE_ROLES);
    if own.Err? then Err(own.error)
    else if user !in vaults[id].members then Err(NotFound)
    else
      var vault := vaults[id];
      var target := vault.members[user];
      if !CanAssignRole(own.value, target.role) || !CanAssignRole(own.value, role) then Err(Forbidden)
      else if target.role == Owner && target.status == Active && role != Owner && |ActiveOwners(vault)| <= 1 then Err(PreconditionFailed)
      else Ok(vault.(members := vault.members[user := target.(role := role)]))
  }

  function TransferOwnership(vaults: map<VaultId, Vault>, id: VaultId, actor: UserId, user: UserId): Result<Vault, Code> {
    if user == actor then Err(BadRequest)
    else
      var own := OwnMembership(vaults, id, actor);
      if own.Err? || own.value.status != Active then Err(NotFound)
      else if own.value.role != Owner || vaults[id].kind != Shared then Err(Forbidden)
      else if user !in vaults[id].members then Err(NotFound)
      else
        var vault := vaults[id];
        var target := vault.members[user];
        if target.status != Active then Err(PreconditionFailed)
        else Ok(vault.(ownerId := user, members := vault.members[user := target.(role := Owner)][actor := own.value.(role := Manage)]))
  }

  function DeleteVault(vaults: map<VaultId, Vault>, id: VaultId, actor: UserId): Result<Vault, Code> {
    var role := RequireVaultRole(vaults, id, actor, {Owner});
    if role.Err? then Err(role.error)
    else if vaults[id].kind != Shared then Err(Forbidden)
    else Ok(vaults[id].(deleted := true))
  }

  // ---- Rotating ----

  /** The new key sealed to one member. */
  datatype MemberKey = MemberKey(userId: UserId, box: Cipher, recipientKeyVersion: nat)

  /** A rotation as sent: `link` is the current key under the new one. */
  datatype Rotation = Rotation(keyVersion: nat, wrap: Cipher, link: Cipher, memberKeys: seq<MemberKey>, senderKeyVersion: nat)

  /** What the schema lets through: a next version in range, one seal per member. */
  predicate ValidRotation(rotation: Rotation) {
    && 2 <= rotation.keyVersion <= MAX_VAULT_KEY_VERSION
    && |rotation.memberKeys| <= MAX_VAULT_MEMBERS
    && forall i, j :: 0 <= i < j < |rotation.memberKeys| ==> rotation.memberKeys[i].userId != rotation.memberKeys[j].userId
  }

  predicate SealedFor(rotation: Rotation, user: UserId, keyVersion: nat) {
    exists i :: 0 <= i < |rotation.memberKeys| && rotation.memberKeys[i].userId == user && rotation.memberKeys[i].recipientKeyVersion == keyVersion
  }

  /** Exactly the other members, each sealed to their current keypair, from the caller's current one. */
  predicate SealsMembers(vault: Vault, keyPairs: map<UserId, nat>, actor: UserId, rotation: Rotation) {
    && |rotation.memberKeys| == |vault.members.Keys - {actor}|
    && (forall u :: u in vault.members && u != actor ==> u in keyPairs && SealedFor(rotation, u, keyPairs[u]))
    && KeyPairIs(keyPairs, actor, rotation.senderKeyVersion)
  }

  function SealOf(actor: UserId, rotation: Rotation, key: MemberKey): Seal {
    Seal(key.box, rotation.keyVersion, key.recipientKeyVersion, Some(actor), rotation.senderKeyVersion)
  }

  function Resealed(member: Member, seal: Seal): Member {
    if member.status == Active then member.(seal := Some(seal)) else member.(keyVersion := seal.keyVersion, seal := Some(seal))
  }

  /** The members once the first `n` seals of a rotation are stored. */
  function SealMembers(members: map<UserId, Member>, actor: UserId, rotation: Rotation, n: nat): (after: map<UserId, Member>)
    requires n <= |rotation.memberKeys|
    ensures after.Keys == members.Keys
  {
    if n == 0 then members else
      var key := rotation.memberKeys[n - 1];
      var before := SealMembers(members, actor, rotation, n - 1);
      if key.userId in before then before[key.userId := Resealed(before[key.userId], SealOf(actor, rotation, key))] else before
  }

  function Rotated(vault: Vault, actor: UserId, rotation: Rotation): Vault
    requires actor in vault.members && rotation.keyVersion >= 1
  {
    var own := vault.members[actor].(keyVersion := rotation.keyVersion, wrap := Some(rotation.wrap));
    vault.(
      keyVersion := rotation.keyVersion,
      rotationNeeded := false,
      links := vault.links[rotation.keyVersion - 1 := rotation.link],
      members := SealMembers(vault.members[actor := own], actor, rotation, |rotation.memberKeys|))
  }

  function RotateKey(vaults: map<VaultId, Vault>, keyPairs: map<UserId, nat>, id: VaultId, actor: UserId, rotation: Rotation): Result<Vault, Code> {
    var role := RequireVaultRole(vaults, id, actor, VAULT_MANAGE_ROLES);
    if role.Err? then Err(role.error)
    else if vaults[id].members[actor].keyVersion != rotation.keyVersion - 1 then Err(Conflict)
    else if !SealsMembers(vaults[id], keyPairs, actor, rotation) then Err(PreconditionFailed)
    else if vaults[id].keyVersion != rotation.keyVersion - 1 || rotation.keyVersion - 1 in vaults[id].links then Err(Conflict)
    else Ok(Rotated(vaults[id], actor, rotation))
  }
}
