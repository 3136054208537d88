/**
 * Every run of the sharing procedures and rotations, with pushes in between: the key
 * state of each vault, who was given its current key, and that a live vault has an owner.
 */
module VaultRuns {
  import opened Prelude
  import opened Crypto
  import opened Tables
  import opened PushEffect
  import opened Vaults

  // ---- The invariants of one vault ----

  /** An active member has a key sealed to them exactly when their own is behind. */
  predicate MemberState(vault: Vault, member: Member) {
    && (member.status == Active ==>
          && 1 <= member.keyVersion <= vault.keyVersion && member.wrap.Some?
          && (member.seal.Some? <==> member.keyVersion < vault.keyVersion))
    && (member.status == Pending ==> member.keyVersion == vault.keyVersion && member.wrap.None? && member.seal.Some?)
    && (member.seal.Some? ==> member.seal.value.keyVersion == vault.keyVersion)
  }

  /** At version k: links for exactly 1..k-1, every seal of version k, every invitee with one. */
  ghost predicate KeyState(vault: Vault) {
    && vault.keyVersion >= 1
    && (forall v :: v in vault.links <==> 1 <= v < vault.keyVersion)
    && (forall u :: u in vault.members ==> MemberState(vault, vault.members[u]))
  }

  predicate HasOwner(vault: Vault) {
    vault.deleted || ActiveOwners(vault) != {}
  }

  /** A personal vault is its owner's alone. */
  predicate Private(vault: Vault) {
    vault.kind == Personal ==> !vault.deleted && vault.members.Keys == {vault.ownerId}
  }

  /** A key version wrapped or sealed to a user at some time. */
  datatype Given = Given(user: UserId, keyVersion: nat)

  /** Unless a rotation is due, everyone ever given the current key is a member or invitee. */
  ghost predicate FlagState(vault: Vault, given: set<Given>) {
    && (forall g :: g in given ==> g.keyVersion <= vault.keyVersion)
    && (!vault.rotationNeeded ==> forall g :: g in given && g.keyVersion == vault.keyVersion ==> g.user in vault.members)
  }

  predicate SealedByActive(vault: Vault, member: Member) {
    && member.seal.Some? && member.seal.value.sealedBy.Some?
    && var sender := member.seal.value.sealedBy.value;
    sender in vault.members && vault.members[sender].status == Active
  }

  /** Everyone in the vault was given its current key; unless a rotation is due, invites come from active members. */
  ghost predicate Roster(vault: Vault, given: set<Given>) {
    && (forall u :: u in vault.members ==> Given(u, vault.keyVersion) in given)
    && (!vault.rotationNeeded ==>
          forall u :: u in vault.members && vault.members[u].status == Pending ==> SealedByActive(vault, vault.members[u]))
  }

  ghost predicate VaultState(vault: Vault, given: set<Given>) {
    KeyState(vault) && HasOwner(vault) && Private(vault) && FlagState(vault, given) && Roster(vault, given)
  }

  // ---- Steps ----

  datatype Action =
    | Registering(user: UserId, upload: Upload)
    | Creating(user: UserId, wrap: Cipher)
    | Inviting(actor: UserId, invitation: Invitation)
    | Accepting(user: UserId, keyVersion: nat, wrap: Cipher)
    | Declining(user: UserId)
    | Leaving(user: UserId)
    | Removing(actor: UserId, user: UserId)
    | SettingRole(actor: UserId, user: UserId, role: Role)
    | Transferring(actor: UserId, user: UserId)
    | Rotating(actor: UserId, rotation: Rotation)
    | Deleting(actor: UserId)

  function OutcomeOf(vaults: map<VaultId, Vault>, keyPairs: map<UserId, nat>, id: VaultId, action: Action): Result<Vault, Code> {
    match action
    case Registering(user, upload) => Register(vaults, id, user, upload)
    case Creating(user, wrap) => Create(vaults, id, user, wrap)
    case Inviting(actor, invitation) => Invite(vaults, keyPairs, id, actor, invitation)
    case Accepting(user, keyVersion, wrap) => AcceptKey(vaults, id, user, keyVersion, wrap)
    case Declining(user) => DeclineInvite(vaults, id, user)
    case Leaving(user) => Leave(vaults, id, user)
    case Removing(actor, user) => RemoveMember(vaults, id, actor, user)
    case SettingRole(actor, user, role) => SetMemberRole(vaults, id, actor, user, role)
    case Transferring(actor, user) => TransferOwnership(vaults, id, actor, user)
    case Rotating(actor, rotation) => RotateKey(vaults, keyPairs, id, actor, rotation)
    case Deleting(actor) => DeleteVault(vaults, id, actor)
  }

  ghost predicate WellFormed(action: Action) {
    && (action.Rotating? ==> ValidRotation(action.rotation))
    && (action.Registering? ==> ValidUpload(action.upload))
  }

  /** Who is given which key by an action that went through. */
  function NewlyGiven(after: Vault, action: Action): set<Given> {
    match action
    case Registering(user, upload) => {Given(user, upload.keyVersion)}
    case Creating(user, _) => {Given(user, 1)}
    case Inviting(_, invitation) => if invitation.invitee.Some? then {Given(invitation.invitee.value, invitation.keyVersion)} else {}
    case Accepting(user, keyVersion, _) => {Given(user, keyVersion)}
    case Rotating(_, rotation) => set u | u in after.members :: Given(u, rotation.keyVersion)
    case _ => {}
  }

  datatype State = State(vaults: map<VaultId, Vault>, keyPairs: map<UserId, nat>, given: map<VaultId, set<Given>>)

  function GivenIn(s: State, id: VaultId): set<Given> {
    if id in s.given then s.given[id] else {}
  }

  ghost predicate ActStep(s: State, next: State, id: VaultId, action: Action) {
    && WellFormed(action)
    && var outcome := OutcomeOf(s.vaults, s.keyPairs, id, action);
    && next == State(Written(s.vaults, id, outcome), s.keyPairs,
                     if outcome.Ok? then s.given[id := GivenIn(s, id) + NewlyGiven(outcome.value, action)] else s.given)
  }

  /** A push only moves the counters of vaults. */
  ghost predicate PushStep(s: State, next: State) {
    && next == s.(vaults := next.vaults)
    && next.vaults.Keys == s.vaults.Keys
    && forall id :: id in s.vaults ==> OnlyCounters(s.vaults[id], next.vaults[id])
  }

  ghost predicate Step(s: State, next: State) {
    || (exists id, action :: ActStep(s, next, id, action))
    || PushStep(s, next)
    || next == s.(keyPairs := next.keyPairs)
  }

  ghost predicate Run(states: seq<State>) {
    && |states| > 0 && states[0].vaults == map[] && states[0].given == map[]
    && forall i :: 0 <= i < |states| - 1 ==> Step(states[i], states[i + 1])
  }

  ghost predicate Inv(s: State) {
    forall id :: id in s.vaults ==> VaultState(s.vaults[id], GivenIn(s, id))
  }

  // ---- Rotation ----

  lemma {:induction false} SealAt(members: map<UserId, Member>, actor: UserId, rotation: Rotation, n: nat, u: UserId)
    requires ValidRotation(rotation) && n <= |rotation.memberKeys| && u in members
    ensures var after := SealMembers(members, actor, rotation, n);
            && ((forall i :: 0 <= i < n ==> rotation.memberKeys[i].userId != u) ==> after[u] == members[u])
            && (forall i :: 0 <= i < n && rotation.memberKeys[i].userId == u ==>
                  after[u] == Resealed(members[u], SealOf(actor, rotation, rotation.memberKeys[i])))
  {
    if n > 0 {
      SealAt(members, actor, rotation, n - 1, u);
    }
  }

  function SealedUsers(keys: seq<MemberKey>): set<UserId> {
    set i | 0 <= i < |keys| :: keys[i].userId
  }

  lemma {:induction false} DistinctCount(keys: seq<MemberKey>)
    requires forall i, j :: 0 <= i < j < |keys| ==> keys[i].userId != keys[j].userId
    ensures |SealedUsers(keys)| == |keys|
  {
    if keys != [] {
      var n := |keys| - 1;
      DistinctCount(keys[..n]);
      assert SealedUsers(keys) == SealedUsers(keys[..n]) + {keys[n].userId};
    }
  }

  lemma {:induction false} SubsetSameSize<T>(a: set<T>, b: set<T>)
    requires a <= b && |a| == |b|
    ensures a == b
  {
    if a != b {
      var x :| x in b && x !in a;
      assert a <= b - {x};
      SubsetSize(a, b - {x});
    }
  }

  lemma {:induction false} SubsetSize<T>(a: set<T>, b: set<T>)
    requires a <= b
    ensures |a| <= |b|
  {
    if a != {} {
      var x := AnyOf(a);
      SubsetSize(a - {x}, b - {x});
    }
  }

  /** A rotation seals to the other members, and to nobody else. */
  lemma {:induction false} SealsExactly(vault: Vault, keyPairs: map<UserId, nat>, actor: UserId, rotation: Rotation)
    requires ValidRotation(rotation) && SealsMembers(vault, keyPairs, actor, rotation)
    ensures SealedUsers(rotation.memberKeys) == vault.members.Keys - {actor}
  {
    var sealed := SealedUsers(rotation.memberKeys);
    DistinctCount(rotation.memberKeys);
    forall u | u in vault.members.Keys - {actor}
      ensures u in sealed
    {
      assert SealedFor(rotation, u, keyPairs[u]);
    }
    SubsetSameSize(vault.members.Keys - {actor}, sealed);
  }

  /** After a rotation the actor holds the new key, everyone else has it sealed to them. */
  lemma {:induction false} RotatedMember(vault: Vault, keyPairs: map<UserId, nat>, actor: UserId, rotation: Rotation, u: UserId)
    requires ValidRotation(rotation) && SealsMembers(vault, keyPairs, actor, rotation)
    requires actor in vault.members && u in vault.members
    ensures var after := Rotated(vault, actor, rotation);
            && after.members.Keys == vault.members.Keys
            && (u == actor ==> after.members[u] == vault.members[u].(keyVersion := rotation.keyVersion, wrap := Some(rotation.wrap)))
            && (u != actor ==> exists i :: 0 <= i < |rotation.memberKeys| && rotation.memberKeys[i].userId == u
                                           && after.members[u] == Resealed(vault.members[u], SealOf(actor, rotation, rotation.memberKeys[i])))
  {
    hide SealsMembers, SealMembers;
    SealsExactly(vault, keyPairs, actor, rotation);
    var own := vault.members[actor].(keyVersion := rotation.keyVersion, wrap := Some(rotation.wrap));
    SealAt(vault.members[actor := own], actor, rotation, |rotation.memberKeys|, u);
    if u == actor {
      assert u !in SealedUsers(rotation.memberKeys);
    } else {
      assert u in SealedUsers(rotation.memberKeys);
    }
  }

  lemma {:induction false} RotateKeepsKeys(vaults: map<VaultId, Vault>, keyPairs: map<UserId, nat>, id: VaultId, actor: UserId, rotation: Rotation)
    requires ValidRotation(rotation) && id in vaults && KeyState(vaults[id])
    requires RotateKey(vaults, keyPairs, id, actor, rotation).Ok?
    ensures KeyState(RotateKey(vaults, keyPairs, id, actor, rotation).value)
  {
    hide SealsMembers, SealMembers, MemberState;
    var vault := vaults[id];
    var after := RotateKey(vaults, keyPairs, id, actor, rotation).value;
    forall u | u in after.members
      ensures MemberState(after, after.members[u])
    {
      assert MemberState(vault, vault.members[u]) && MemberState(vault, vault.members[actor]);
      RotatedKeepsMember(vault, keyPairs, actor, rotation, u);
    }
  }

  lemma {:induction false} RotatedKeepsMember(vault: Vault, keyPairs: map<UserId, nat>, actor: UserId, rotation: Rotation, u: UserId)
    requires ValidRotation(rotation) && SealsMembers(vault, keyPairs, actor, rotation)
    requires actor in vault.members && u in vault.members && MemberState(vault, vault.members[u])
    requires MemberState(vault, vault.members[actor]) && vault.members[actor].status == Active
    requires rotation.keyVersion - 1 == vault.keyVersion == vault.members[actor].keyVersion
    ensures u in Rotated(vault, actor, rotation).members && MemberState(Rotated(vault, actor, rotation), Rotated(vault, actor, rotation).members[u])
  {
    hide SealsMembers, SealMembers;
    RotatedMember(vault, keyPairs, actor, rotation, u);
  }

  lemma {:induction false} RotateKeepsOwner(vaults: map<VaultId, Vault>, keyPairs: map<UserId, nat>, id: VaultId, actor: UserId, rotation: Rotation)
    requires ValidRotation(rotation) && id in vaults && HasOwner(vaults[id])
    requires RotateKey(vaults, keyPairs, id, actor, rotation).Ok?
    ensures HasOwner(RotateKey(vaults, keyPairs, id, actor, rotation).value)
  {
    var vault := vaults[id];
    var after := RotateKey(vaults, keyPairs, id, actor, rotation).value;
    var owner := AnyOf(ActiveOwners(vault));
    RotatedMember(vault, keyPairs, actor, rotation, owner);
    assert owner in ActiveOwners(after);
  }

  lemma {:induction false} RotatingOutcome(vaults: map<VaultId, Vault>, keyPairs: map<UserId, nat>, id: VaultId, actor: UserId, rotation: Rotation)
    ensures OutcomeOf(vaults, keyPairs, id, Rotating(actor, rotation)) == RotateKey(vaults, keyPairs, id, actor, rotation)
    ensures RotateKey(vaults, keyPairs, id, actor, rotation).Ok? ==> id in vaults && actor in vaults[id].members
    ensures WellFormed(Rotating(actor, rotation)) ==> ValidRotation(rotation)
  {
    hide ValidRotation, SealsMembers, Rotated;
  }

  // ---- Owners ----

  lemma {:induction false} AnotherOwner(owners: set<UserId>, u: UserId)
    requires |owners| > 1
    ensures owners - {u} != {}
  {
    if owners - {u} == {} {
      SubsetSize(owners, {u});
    }
  }

  lemma {:induction false} StepKeepsOwner(vaults: map<VaultId, Vault>, keyPairs: map<UserId, nat>, id: VaultId, action: Action)
    requires WellFormed(action)
    requires id in vaults ==> HasOwner(vaults[id])
    requires OutcomeOf(vaults, keyPairs, id, action).Ok?
    ensures HasOwner(OutcomeOf(vaults, keyPairs, id, action).value)
  {
    var after := OutcomeOf(vaults, keyPairs, id, action).value;
    if action.Rotating? {
      RotateKeepsOwner(vaults, keyPairs, id, action.actor, action.rotation);
    } else if action.Creating? || action.Registering? {
      assert action.user in ActiveOwners(after);
    } else if !action.Deleting? {
      var owners := ActiveOwners(vaults[id]);
      var keeper: UserId := AnyOf(owners);
      match action {
        case Leaving(user) =>
          if user in owners {
            AnotherOwner(owners, user);
            keeper := AnyOf(owners - {user});
          }
        case Removing(actor, user) =>
          if user in owners {
            keeper := actor;
          }
        case SettingRole(actor, user, role) =>
          if user in owners && role != Owner {
            AnotherOwner(owners, user);
            keeper := AnyOf(owners - {user});
          }
        case Transferring(actor, user) =>
          keeper := user;
        case _ =>
      }
      assert keeper in ActiveOwners(after);
    }
  }

  /** Nobody else ever gets into a personal vault, and its owner cannot leave or delete it. */
  lemma {:induction false} StepKeepsPrivate(vaults: map<VaultId, Vault>, keyPairs: map<UserId, nat>, id: VaultId, action: Action)
    requires WellFormed(action)
    requires id in vaults ==> HasOwner(vaults[id]) && Private(vaults[id])
    requires OutcomeOf(vaults, keyPairs, id, action).Ok?
    ensures Private(OutcomeOf(vaults, keyPairs, id, action).value)
  {
    if action.Rotating? {
      RotateKeepsPrivate(vaults, keyPairs, id, action.actor, action.rotation);
    } else {
      hide RotateKey, KeyPairIs;
      if id in vaults && vaults[id].kind == Personal {
        assert AnyOf(ActiveOwners(vaults[id])) == vaults[id].ownerId;
      }
    }
  }

  lemma {:induction false} RotateKeepsPrivate(vaults: map<VaultId, Vault>, keyPairs: map<UserId, nat>, id: VaultId, actor: UserId, rotation: Rotation)
    requires RotateKey(vaults, keyPairs, id, actor, rotation).Ok? && Private(vaults[id])
    ensures Private(RotateKey(vaults, keyPairs, id, actor, rotation).value)
  {
    hide SealsMembers;
  }

  // ---- Keys and knowers ----

  lemma {:induction false} StepKeepsKeys(vaults: map<VaultId, Vault>, keyPairs: map<UserId, nat>, id: VaultId, action: Action)
    requires WellFormed(action)
    requires id in vaults ==> KeyState(vaults[id])
    requires OutcomeOf(vaults, keyPairs, id, action).Ok?
    ensures KeyState(OutcomeOf(vaults, keyPairs, id, action).value)
  {
    if action.Rotating? {
      hide RotateKey, KeyState;
      RotatingOutcome(vaults, keyPairs, id, action.actor, action.rotation);
      RotateKeepsKeys(vaults, keyPairs, id, action.actor, action.rotation);
    } else {
      OthersKeepKeys(vaults, keyPairs, id, action);
    }
  }

  lemma {:induction false} OthersKeepKeys(vaults: map<VaultId, Vault>, keyPairs: map<UserId, nat>, id: VaultId, action: Action)
    requires WellFormed(action) && !action.Rotating?
    requires id in vaults ==> KeyState(vaults[id])
    requires OutcomeOf(vaults, keyPairs, id, action).Ok?
    ensures KeyState(OutcomeOf(vaults, keyPairs, id, action).value)
  {
    hide RotateKey, KeyPairIs, CanAssignRole, ActiveOwners, MemberState;
    var after := OutcomeOf(vaults, keyPairs, id, action).value;
    forall u | u in after.members
      ensures MemberState(after, after.members[u])
    {
      OthersKeepMember(vaults, keyPairs, id, action, u);
    }
  }

  lemma {:induction false} OthersKeepMember(vaults: map<VaultId, Vault>, keyPairs: map<UserId, nat>, id: VaultId, action: Action, u: UserId)
    requires WellFormed(action) && !action.Rotating?
    requires OutcomeOf(vaults, keyPairs, id, action).Ok? && u in OutcomeOf(vaults, keyPairs, id, action).value.members
    requires id in vaults && u in vaults[id].members ==> MemberState(vaults[id], vaults[id].members[u])
    requires id in vaults ==> vaults[id].keyVersion >= 1
    ensures MemberState(OutcomeOf(vaults, keyPairs, id, action).value, OutcomeOf(vaults, keyPairs, id, action).value.members[u])
  {
    hide RotateKey, KeyPairIs, CanAssignRole, ActiveOwners;
  }

  lemma {:induction false} StepKeepsFlag(vaults: map<VaultId, Vault>, keyPairs: map<UserId, nat>, id: VaultId, action: Action, given: set<Given>)
    requires WellFormed(action)
    requires if id in vaults then KeyState(vaults[id]) && FlagState(vaults[id], given) else given == {}
    requires OutcomeOf(vaults, keyPairs, id, action).Ok?
    ensures var after := OutcomeOf(vaults, keyPairs, id, action).value; FlagState(after, given + NewlyGiven(after, action))
  {
    var after := OutcomeOf(vaults, keyPairs, id, action).value;
    if action.Rotating? {
      RotateKeepsFlag(vaults, keyPairs, id, action.actor, action.rotation, given);
    } else if action.Accepting? {
      assert MemberState(vaults[id], vaults[id].members[action.user]);
    }
  }

  lemma {:induction false} RotateKeepsFlag(vaults: map<VaultId, Vault>, keyPairs: map<UserId, nat>, id: VaultId, actor: UserId, rotation: Rotation, given: set<Given>)
    requires ValidRotation(rotation) && id in vaults && FlagState(vaults[id], given)
    requires RotateKey(vaults, keyPairs, id, actor, rotation).Ok?
    ensures var after := RotateKey(vaults, keyPairs, id, actor, rotation).value;
            FlagState(after, given + NewlyGiven(after, Rotating(actor, rotation)))
  {
    hide SealMembers, SealsMembers;
  }

  lemma {:induction false} OthersKeepInvites(vaults: map<VaultId, Vault>, keyPairs: map<UserId, nat>, id: VaultId, action: Action, u: UserId)
    requires !action.Rotating? && OutcomeOf(vaults, keyPairs, id, action).Ok?
    requires var after := OutcomeOf(vaults, keyPairs, id, action).value;
             !after.rotationNeeded && u in after.members && after.members[u].status == Pending
    requires id in vaults && !vaults[id].rotationNeeded && u in vaults[id].members && vaults[id].members[u].status == Pending ==>
               SealedByActive(vaults[id], vaults[id].members[u])
    ensures var after := OutcomeOf(vaults, keyPairs, id, action).value; SealedByActive(after, after.members[u])
  {
    hide RotateKey, KeyPairIs, CanAssignRole, ActiveOwners;
  }

  lemma {:induction false} StepKeepsRoster(vaults: map<VaultId, Vault>, keyPairs: map<UserId, nat>, id: VaultId, action: Action, given: set<Given>)
    requires WellFormed(action)
    requires id in vaults ==> KeyState(vaults[id]) && Roster(vaults[id], given)
    requires OutcomeOf(vaults, keyPairs, id, action).Ok?
    ensures var after := OutcomeOf(vaults, keyPairs, id, action).value; Roster(after, given + NewlyGiven(after, action))
  {
    if action.Rotating? {
      RotateKeepsRoster(vaults, keyPairs, id, action.actor, action.rotation, given);
    } else {
      hide KeyState, RotateKey, KeyPairIs, CanAssignRole, ActiveOwners, SealedByActive;
      var after := OutcomeOf(vaults, keyPairs, id, action).value;
      if !after.rotationNeeded {
        forall u | u in after.members && after.members[u].status == Pending
          ensures SealedByActive(after, after.members[u])
        {
          OthersKeepInvites(vaults, keyPairs, id, action, u);
        }
      }
    }
  }

  lemma {:induction false} RotateKeepsRoster(vaults: map<VaultId, Vault>, keyPairs: map<UserId, nat>, id: VaultId, actor: UserId, rotation: Rotation, given: set<Given>)
    requires ValidRotation(rotation) && id in vaults
    requires RotateKey(vaults, keyPairs, id, actor, rotation).Ok?
    ensures var after := RotateKey(vaults, keyPairs, id, actor, rotation).value;
            Roster(after, given + NewlyGiven(after, Rotating(actor, rotation)))
  {
    var after := RotateKey(vaults, keyPairs, id, actor, rotation).value;
    RotatedMember(vaults[id], keyPairs, actor, rotation, actor);
    forall u | u in after.members && after.members[u].status == Pending
      ensures SealedByActive(after, after.members[u])
    {
      RotatedMember(vaults[id], keyPairs, actor, rotation, u);
    }
  }

  // ---- Runs ----

  lemma {:induction false} ActKeeps(s: State, next: State, id: VaultId, action: Action)
    requires Inv(s) && (forall other :: other in s.given ==> other in s.vaults)
    requires ActStep(s, next, id, action)
    ensures Inv(next) && (forall other :: other in next.given ==> other in next.vaults)
  {
    hide VaultState, OutcomeOf, NewlyGiven, WellFormed;
    var outcome := OutcomeOf(s.vaults, s.keyPairs, id, action);
    if outcome.Ok? {
      ActKeepsVault(s, id, action);
    }
  }

  lemma {:induction false} ActKeepsVault(s: State, id: VaultId, action: Action)
    requires WellFormed(action)
    requires if id in s.vaults then VaultState(s.vaults[id], GivenIn(s, id)) else id !in s.given
    requires OutcomeOf(s.vaults, s.keyPairs, id, action).Ok?
    ensures var after := OutcomeOf(s.vaults, s.keyPairs, id, action).value;
            VaultState(after, GivenIn(s, id) + NewlyGiven(after, action))
  {
    hide HasOwner, Private, KeyState, FlagState, Roster, NewlyGiven, OutcomeOf;
    StepKeepsRoster(s.vaults, s.keyPairs, id, action, GivenIn(s, id));
    StepKeepsKeys(s.vaults, s.keyPairs, id, action);
    StepKeepsFlag(s.vaults, s.keyPairs, id, action, GivenIn(s, id));
    StepKeepsOwner(s.vaults, s.keyPairs, id, action);
    StepKeepsPrivate(s.vaults, s.keyPairs, id, action);
  }

  lemma {:induction false} PushKeepsVaults(s: State, next: State)
    requires Inv(s) && PushStep(s, next)
    ensures Inv(next)
  {
    forall id | id in next.vaults
      ensures VaultState(next.vaults[id], GivenIn(next, id))
    {
      var before := s.vaults[id];
      var after := next.vaults[id];
      assert VaultState(before, GivenIn(s, id)) && OnlyCounters(before, after);
      assert ActiveOwners(after) == ActiveOwners(before);
      forall u | u in after.members
        ensures MemberState(after, after.members[u])
      {
        assert MemberState(before, before.members[u]);
      }
      CountersKeepRoster(before, after, GivenIn(s, id));
    }
  }

  lemma {:induction false} CountersKeepRoster(before: Vault, after: Vault, given: set<Given>)
    requires OnlyCounters(before, after) && Roster(before, given)
    ensures Roster(after, given)
  {
    if !after.rotationNeeded {
      forall u | u in after.members && after.members[u].status == Pending
        ensures SealedByActive(after, after.members[u])
      {
        assert SealedByActive(before, before.members[u]);
      }
    }
  }

  ghost predicate Known(s: State) {
    Inv(s) && forall id :: id in s.given ==> id in s.vaults
  }

  lemma {:induction false} StepKeeps(s: State, next: State)
    requires Known(s) && Step(s, next)
    ensures Known(next)
  {
    hide VaultState, ActStep;
    if id, action :| ActStep(s, next, id, action) {
      ActKeeps(s, next, id, action);
    } else if PushStep(s, next) {
      PushKeepsVaults(s, next);
    }
  }

  /**
   * In every state of every run, each vault is in its key state, has an active owner
   * unless deleted, is its owner's alone when personal, and unless its rotation flag is
   * set nobody outside it was ever given its current key.
   */
  lemma {:induction false} RunKeeps(states: seq<State>, i: nat)
    requires Run(states) && i < |states|
    ensures Known(states[i])
  {
    hide Step, VaultState;
    if i > 0 {
      RunKeeps(states, i - 1);
      assert Step(states[i - 1], states[i - 1 + 1]);
      StepKeeps(states[i - 1], states[i]);
    }
  }
}
