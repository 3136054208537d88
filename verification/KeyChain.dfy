/**
 * A vault's keys over honest runs. Members encrypt as their clients do; the server only
 * stores what it is sent. A member who was away catches up, and nobody learns a key
 * who was not given it or a newer one.
 */
module KeyChain {
  import opened Prelude
  import opened Crypto
  import opened Tables
  import opened Vaults
  import opened VaultRuns

  // ---- The key update a member is offered ----

  datatype KeyPairId = KeyPairId(user: UserId, version: nat)

  /** A newer key sealed to a member: `links` lead from it down to the key they hold. */
  datatype KeyUpdate = KeyUpdate(vaultId: VaultId, keyVersion: nat, box: Cipher, recipientKeyVersion: nat, sender: PublicKey, links: map<nat, Cipher>)

  function KeyUpdateOf(vaults: map<VaultId, Vault>, publicKeys: map<KeyPairId, PublicKey>, id: VaultId, user: UserId): Option<KeyUpdate> {
    var own := OwnMembership(vaults, id, user);
    if own.Err? || own.value.status != Active || own.value.seal.None? then None
    else
      var seal := own.value.seal.value;
      if seal.sealedBy.None? || KeyPairId(seal.sealedBy.value, seal.sealedByKeyVersion) !in publicKeys then None
      else Some(KeyUpdate(id, seal.keyVersion, seal.box, seal.sealedTo, publicKeys[KeyPairId(seal.sealedBy.value, seal.sealedByKeyVersion)],
                          map v | v in vaults[id].links && own.value.keyVersion <= v < seal.keyVersion :: vaults[id].links[v]))
  }

  /** Every key update of a user, vault by vault. */
  method KeyUpdates(db: Database, publicKeys: map<KeyPairId, PublicKey>, user: UserId) returns (updates: seq<KeyUpdate>)
    ensures forall update :: update in updates <==> exists id :: id in db.vaults && KeyUpdateOf(db.vaults, publicKeys, id, user) == Some(update)
  {
    hide KeyUpdateOf;
    updates := [];
    var ids := Sorted(db.vaults.Keys);
    for n := 0 to |ids|
      invariant forall update :: update in updates <==> exists i :: 0 <= i < n && KeyUpdateOf(db.vaults, publicKeys, ids[i], user) == Some(update)
    {
      var update := KeyUpdateOf(db.vaults, publicKeys, ids[n], user);
      if update.Some? {
        updates := updates + [update.value];
      }
    }
    assert forall id :: id in db.vaults <==> id in ids;
  }

  // ---- Opening it on the device ----

  /** Walk the links from the key of version `from` down to the one of version `to`. */
  function WalkDown(key: Key, id: VaultId, links: map<nat, Cipher>, from: nat, to: nat): Option<Key>
    requires to <= from
    decreases from
  {
    if from == to then Some(key)
    else if from - 1 !in links then None
    else
      var older := UnwrapPreviousVaultKey(key, links[from - 1], id, from - 1);
      if older.None? then None else WalkDown(older.value, id, links, from - 1, to)
  }

  /** The device's own wrap of a newer key, if the key opens and leads to the one it holds. */
  function OpenKeyUpdate(accountKey: Key, privateKey: Key, keyPairVersion: nat, heldVersion: nat, held: Key, update: KeyUpdate): Option<Cipher> {
    if update.keyVersion <= heldVersion || update.recipientKeyVersion != keyPairVersion then None
    else
      var newKey := OpenSealedVaultKey(privateKey, update.sender, update.box, update.vaultId, update.keyVersion);
      if newKey.None? || WalkDown(newKey.value, update.vaultId, update.links, update.keyVersion, heldVersion) != Some(held) then None
      else Some(WrapVaultKey(accountKey, newKey.value, update.vaultId, update.keyVersion))
  }

  /** A key leads down to another when each link on the way, from one version to the next below, opens with the key above it. */
  ghost predicate Leads(key: Key, id: VaultId, links: map<nat, Cipher>, from: nat, to: nat, held: Key) {
    exists keys: seq<Key> :: Chain(keys, id, links, from, to) && keys[0] == key && keys[from - to] == held
  }

  ghost predicate Chain(keys: seq<Key>, id: VaultId, links: map<nat, Cipher>, from: nat, to: nat) {
    && to <= from && |keys| == from - to + 1
    && forall v: nat :: to <= v < from ==> v in links && links[v] == Aead(keys[from - v - 1], PreviousVaultKeyAad(id, v), keys[from - v])
  }

  /** Walking down finds exactly the key that is led to. */
  lemma {:induction false} WalkIsLed(key: Key, id: VaultId, links: map<nat, Cipher>, from: nat, to: nat, held: Key)
    requires to <= from
    ensures WalkDown(key, id, links, from, to) == Some(held) <==> Leads(key, id, links, from, to, held)
    decreases from
  {
    if from == to {
      assert Chain([key], id, links, from, to);
    } else if from - 1 in links {
      var older := UnwrapPreviousVaultKey(key, links[from - 1], id, from - 1);
      if older.Some? {
        WalkIsLed(older.value, id, links, from - 1, to, held);
        if Leads(older.value, id, links, from - 1, to, held) {
          var keys :| Chain(keys, id, links, from - 1, to) && keys[0] == older.value && keys[from - 1 - to] == held;
          ChainUp(key, keys, id, links, from, to);
        }
      }
      if Leads(key, id, links, from, to, held) {
        var keys: seq<Key> :| Chain(keys, id, links, from, to) && keys[0] == key && keys[from - to] == held;
        ChainDown(keys, id, links, from, to);
        assert older == Some(keys[1]);
        assert keys[1..][from - 1 - to] == held;
      }
    }
  }

  lemma {:induction false} ChainUp(key: Key, keys: seq<Key>, id: VaultId, links: map<nat, Cipher>, from: nat, to: nat)
    requires to < from && Chain(keys, id, links, from - 1, to) && from - 1 in links
    requires links[from - 1] == Aead(key, PreviousVaultKeyAad(id, from - 1), keys[0])
    ensures Chain([key] + keys, id, links, from, to) && ([key] + keys)[from - to] == keys[from - 1 - to]
  {
    var all := [key] + keys;
    forall v: nat | to <= v < from
      ensures v in links && links[v] == Aead(all[from - v - 1], PreviousVaultKeyAad(id, v), all[from - v])
    {
      if v < from - 1 {
        assert links[v] == Aead(keys[from - 1 - v - 1], PreviousVaultKeyAad(id, v), keys[from - 1 - v]);
      }
    }
  }

  lemma {:induction false} ChainDown(keys: seq<Key>, id: VaultId, links: map<nat, Cipher>, from: nat, to: nat)
    requires to < from && Chain(keys, id, links, from, to)
    ensures Chain(keys[1..], id, links, from - 1, to)
    ensures from - 1 in links && links[from - 1] == Aead(keys[0], PreviousVaultKeyAad(id, from - 1), keys[1])
  {
    var rest := keys[1..];
    assert links[from - 1] == Aead(keys[from - (from - 1) - 1], PreviousVaultKeyAad(id, from - 1), keys[from - (from - 1)]);
    forall v: nat | to <= v < from - 1
      ensures v in links && links[v] == Aead(rest[from - 1 - v - 1], PreviousVaultKeyAad(id, v), rest[from - 1 - v])
    {
      assert rest[from - 1 - v - 1] == keys[from - v - 1] && rest[from - 1 - v] == keys[from - v];
    }
  }

  /**
   * A device takes an update exactly when it is newer, sealed to its keypair by the sender
   * it names, and the key in it leads down to the one the device holds; and then wraps that
   * key. Anything that leads elsewhere is refused.
   */
  lemma {:induction false} OpensExactly(accountKey: Key, privateKey: Key, keyPairVersion: nat, heldVersion: nat, held: Key, update: KeyUpdate, newKey: Key)
    ensures var wrap := OpenKeyUpdate(accountKey, privateKey, keyPairVersion, heldVersion, held, update);
            && (wrap.Some? && update.box.Box? && update.box.plain == newKey ==> wrap.value == Aead(accountKey, VaultKeyAad(update.vaultId, update.keyVersion), newKey))
            && (wrap.Some? ==> update.box.Box?)
            && (update.box == Box(update.sender, PublicKey(privateKey), VaultKeySealAad(update.vaultId, update.keyVersion), newKey) ==>
                  (wrap.Some? <==> update.keyVersion > heldVersion && update.recipientKeyVersion == keyPairVersion
                                   && Leads(newKey, update.vaultId, update.links, update.keyVersion, heldVersion, held)))
            && (update.box.Box? && update.box != Box(update.sender, PublicKey(privateKey), VaultKeySealAad(update.vaultId, update.keyVersion), update.box.plain) ==> wrap.None?)
  {
    hide Leads;
    if update.keyVersion > heldVersion {
      WalkIsLed(newKey, update.vaultId, update.links, update.keyVersion, heldVersion, held);
    }
  }

  /** An update is offered exactly to an active member of a live vault with a key sealed to them by a known keypair: that key, and the links from theirs up to it. */
  lemma {:induction false} OfferedExactly(vaults: map<VaultId, Vault>, publicKeys: map<KeyPairId, PublicKey>, id: VaultId, user: UserId)
    ensures var offered := KeyUpdateOf(vaults, publicKeys, id, user);
            && (offered.Some? <==>
                  && id in vaults && !vaults[id].deleted && user in vaults[id].members && vaults[id].members[user].status == Active
                  && vaults[id].members[user].seal.Some? && vaults[id].members[user].seal.value.sealedBy.Some?
                  && KeyPairId(vaults[id].members[user].seal.value.sealedBy.value, vaults[id].members[user].seal.value.sealedByKeyVersion) in publicKeys)
            && (offered.Some? ==>
                  var seal := vaults[id].members[user].seal.value;
                  && offered.value.vaultId == id && offered.value.box == seal.box && offered.value.keyVersion == seal.keyVersion
                  && offered.value.recipientKeyVersion == seal.sealedTo
                  && offered.value.sender == publicKeys[KeyPairId(seal.sealedBy.value, seal.sealedByKeyVersion)]
                  && (forall v :: v in offered.value.links <==> v in vaults[id].links && vaults[id].members[user].keyVersion <= v < seal.keyVersion)
                  && (forall v :: v in offered.value.links ==> offered.value.links[v] == vaults[id].links[v]))
  {
  }

  // ---- Honest clients ----

  /** The users' own keys: account keys and the private keys of their keypairs. */
  datatype Secrets = Secrets(account: map<UserId, Key>, private: map<KeyPairId, Key>)

  /** One vault with what only its members know: its keys, oldest first; who was given which; and every ciphertext stored for it. */
  datatype Ledger = Ledger(vault: Vault, keys: seq<Key>, given: set<Given>, sent: set<Cipher>)

  /** An invite or a rotation seals the key of its version between the keypairs it names. */
  ghost predicate HonestSeal(sec: Secrets, key: Key, id: VaultId, keyVersion: nat, box: Cipher, sender: KeyPairId, recipient: KeyPairId) {
    sender in sec.private && recipient in sec.private
    && box == SealVaultKey(sec.private[sender], PublicKey(sec.private[recipient]), key, id, keyVersion)
  }

  ghost predicate HonestWrap(sec: Secrets, key: Key, id: VaultId, keyVersion: nat, wrap: Cipher, user: UserId) {
    user in sec.account && wrap == WrapVaultKey(sec.account[user], key, id, keyVersion)
  }

  /** What a client sends is made from the keys it holds; a rotation brings a fresh one (`rotateVaultKey`). */
  ghost predicate HonestAction(id: VaultId, sec: Secrets, keys: seq<Key>, action: Action, newKey: Key) {
    match action
    case Inviting(actor, x) =>
      1 <= x.keyVersion <= |keys| && x.invitee.Some?
      && HonestSeal(sec, keys[x.keyVersion - 1], id, x.keyVersion, x.box, KeyPairId(actor, x.senderKeyVersion), KeyPairId(x.invitee.value, x.recipientKeyVersion))
    case Accepting(user, keyVersion, wrap) =>
      1 <= keyVersion <= |keys| && HonestWrap(sec, keys[keyVersion - 1], id, keyVersion, wrap, user)
    case Rotating(actor, x) =>
      2 <= x.keyVersion <= |keys| + 1
      && x.link == WrapPreviousVaultKey(newKey, keys[x.keyVersion - 2], id, x.keyVersion - 1)
      && HonestWrap(sec, newKey, id, x.keyVersion, x.wrap, actor)
      && forall i :: 0 <= i < |x.memberKeys| ==>
           HonestSeal(sec, newKey, id, x.keyVersion, x.memberKeys[i].box, KeyPairId(actor, x.senderKeyVersion),
                      KeyPairId(x.memberKeys[i].userId, x.memberKeys[i].recipientKeyVersion))
    case _ => true
  }

  /** The ciphertexts an action stores. */
  function CiphersOf(action: Action): set<Cipher> {
    match action
    case Registering(_, upload) => {upload.wrap} + upload.links.Values
    case Creating(_, wrap) => {wrap}
    case Inviting(_, x) => {x.box}
    case Accepting(_, _, wrap) => {wrap}
    case Rotating(_, x) => {x.wrap, x.link} + set i | 0 <= i < |x.memberKeys| :: x.memberKeys[i].box
    case _ => {}
  }

  function Outcome(id: VaultId, l: Ledger, keyPairs: map<UserId, nat>, action: Action): Result<Vault, Code> {
    OutcomeOf(map[id := l.vault], keyPairs, id, action)
  }

  function After(id: VaultId, l: Ledger, keyPairs: map<UserId, nat>, action: Action, newKey: Key): Ledger
    requires Outcome(id, l, keyPairs, action).Ok?
  {
    var vault := Outcome(id, l, keyPairs, action).value;
    Ledger(vault, if action.Rotating? then l.keys + [newKey] else l.keys, l.given + NewlyGiven(vault, action), l.sent + CiphersOf(action))
  }

  ghost predicate HonestMember(id: VaultId, sec: Secrets, keys: seq<Key>, user: UserId, member: Member) {
    && (member.wrap.Some? ==> 1 <= member.keyVersion <= |keys| && HonestWrap(sec, keys[member.keyVersion - 1], id, member.keyVersion, member.wrap.value, user))
    && (member.seal.Some? ==>
          var seal := member.seal.value;
          && seal.sealedBy.Some? && 1 <= seal.keyVersion <= |keys|
          && HonestSeal(sec, keys[seal.keyVersion - 1], id, seal.keyVersion, seal.box,
                        KeyPairId(seal.sealedBy.value, seal.sealedByKeyVersion), KeyPairId(user, seal.sealedTo)))
  }

  /** Every stored link, wrap and seal holds the key it claims. */
  ghost predicate HonestVault(id: VaultId, sec: Secrets, l: Ledger) {
    && KeyState(l.vault)
    && |l.keys| == l.vault.keyVersion
    && (forall v :: v in l.vault.links && v >= 1 && v < |l.keys| ==> l.vault.links[v] == WrapPreviousVaultKey(l.keys[v], l.keys[v - 1], id, v))
    && (forall u :: u in l.vault.members ==> HonestMember(id, sec, l.keys, u, l.vault.members[u]))
  }

  lemma {:induction false} MoreKeys(id: VaultId, sec: Secrets, keys: seq<Key>, newKey: Key, user: UserId, member: Member)
    requires HonestMember(id, sec, keys, user, member)
    ensures HonestMember(id, sec, keys + [newKey], user, member)
  {
  }

  lemma {:induction false} RotatedHonest(id: VaultId, sec: Secrets, l: Ledger, keyPairs: map<UserId, nat>, actor: UserId, rotation: Rotation, newKey: Key, u: UserId)
    requires HonestVault(id, sec, l) && ValidRotation(rotation)
    requires HonestAction(id, sec, l.keys, Rotating(actor, rotation), newKey)
    requires actor in l.vault.members && SealsMembers(l.vault, keyPairs, actor, rotation) && l.vault.keyVersion == rotation.keyVersion - 1
    requires l.vault.members[actor].keyVersion == rotation.keyVersion - 1
    requires u in l.vault.members && u in Rotated(l.vault, actor, rotation).members
    ensures HonestMember(id, sec, l.keys + [newKey], u, Rotated(l.vault, actor, rotation).members[u])
  {
    hide SealMembers, SealsMembers, HonestSeal, HonestWrap, Rotated;
    RotatedMember(l.vault, keyPairs, actor, rotation, u);
    MoreKeys(id, sec, l.keys, newKey, u, l.vault.members[u]);
    assert MemberState(l.vault, l.vault.members[u]);
  }

  lemma {:induction false} RotationStaysHonest(id: VaultId, sec: Secrets, l: Ledger, keyPairs: map<UserId, nat>, actor: UserId, rotation: Rotation, newKey: Key)
    requires HonestVault(id, sec, l) && ValidRotation(rotation)
    requires HonestAction(id, sec, l.keys, Rotating(actor, rotation), newKey)
    requires RotateKey(map[id := l.vault], keyPairs, id, actor, rotation).Ok?
    ensures var vault := RotateKey(map[id := l.vault], keyPairs, id, actor, rotation).value;
            HonestVault(id, sec, Ledger(vault, l.keys + [newKey], l.given, l.sent))
  {
    hide SealMembers, SealsMembers, HonestMember, HonestSeal, HonestWrap, KeyState, MemberState;
    var after := Rotated(l.vault, actor, rotation);
    RotateKeepsKeys(map[id := l.vault], keyPairs, id, actor, rotation);
    forall u | u in after.members
      ensures HonestMember(id, sec, l.keys + [newKey], u, after.members[u])
    {
      RotatedHonest(id, sec, l, keyPairs, actor, rotation, newKey, u);
    }
    StateOf(l.vault);
  }

  lemma {:induction false} StateOf(vault: Vault)
    requires KeyState(vault)
    ensures vault.keyVersion >= 1 && forall v :: v in vault.links <==> 1 <= v < vault.keyVersion
  {
  }

  lemma {:induction false} StaysHonest(id: VaultId, sec: Secrets, l: Ledger, keyPairs: map<UserId, nat>, action: Action, newKey: Key)
    requires HonestVault(id, sec, l) && WellFormed(action)
    requires HonestAction(id, sec, l.keys, action, newKey)
    requires Outcome(id, l, keyPairs, action).Ok?
    ensures HonestVault(id, sec, After(id, l, keyPairs, action, newKey))
  {
    hide KeyState, NewlyGiven, CiphersOf, OutcomeOf, HonestMember, HonestAction, WellFormed, RotateKey;
    StepKeepsKeys(map[id := l.vault], keyPairs, id, action);
    if action.Rotating? {
      RotatingOutcome(map[id := l.vault], keyPairs, id, action.actor, action.rotation);
      RotationStaysHonest(id, sec, l, keyPairs, action.actor, action.rotation, newKey);
    } else {
      OthersStayHonest(id, sec, l, keyPairs, action, newKey);
    }
  }

  /** Any action but a rotation leaves the keys and links, and at most one member's row holds something new. */
  lemma {:induction false} OthersStayHonest(id: VaultId, sec: Secrets, l: Ledger, keyPairs: map<UserId, nat>, action: Action, newKey: Key)
    requires HonestVault(id, sec, l) && !action.Rotating?
    requires HonestAction(id, sec, l.keys, action, newKey)
    requires Outcome(id, l, keyPairs, action).Ok?
    ensures var after := Outcome(id, l, keyPairs, action).value;
            && after.keyVersion == l.vault.keyVersion && after.links == l.vault.links
            && forall u :: u in after.members ==> HonestMember(id, sec, l.keys, u, after.members[u])
  {
    hide KeyState, HonestMember, ActiveOwners, CanAssignRole, RotateKey, KeyPairIs, HonestAction;
    var after := Outcome(id, l, keyPairs, action).value;
    forall u | u in after.members
      ensures HonestMember(id, sec, l.keys, u, after.members[u])
    {
      OtherStaysHonest(id, sec, l, keyPairs, action, newKey, u);
    }
  }

  lemma {:induction false} OtherStaysHonest(id: VaultId, sec: Secrets, l: Ledger, keyPairs: map<UserId, nat>, action: Action, newKey: Key, u: UserId)
    requires !action.Rotating? && HonestAction(id, sec, l.keys, action, newKey)
    requires Outcome(id, l, keyPairs, action).Ok? && u in Outcome(id, l, keyPairs, action).value.members
    requires u in l.vault.members ==> HonestMember(id, sec, l.keys, u, l.vault.members[u])
    ensures HonestMember(id, sec, l.keys, u, Outcome(id, l, keyPairs, action).value.members[u])
  {
    hide HonestSeal, HonestWrap, ActiveOwners, CanAssignRole, RotateKey, KeyPairIs;
  }

  // ---- Catching up ----

  /** Walking an honest vault's links down from a version reaches the key of each version below. */
  lemma {:induction false} WalkReaches(id: VaultId, keys: seq<Key>, links: map<nat, Cipher>, from: nat, to: nat)
    requires 1 <= to <= from <= |keys|
    requires forall v :: to <= v < from ==> v in links && links[v] == WrapPreviousVaultKey(keys[v], keys[v - 1], id, v)
    ensures WalkDown(keys[from - 1], id, links, from, to) == Some(keys[to - 1])
    decreases from
  {
    if from > to {
      WalkReaches(id, keys, links, from - 1, to);
    }
  }

  /**
   * The key update the server offers has exactly the links from the key the member holds,
   * opens on their device, and accepting it brings them to the vault's current version
   * with nothing left to accept.
   */
  ghost predicate CatchesUp(id: VaultId, sec: Secrets, l: Ledger, publicKeys: map<KeyPairId, PublicKey>, user: UserId)
    requires user in l.vault.members && user in sec.account && 1 <= l.vault.members[user].keyVersion <= l.vault.keyVersion == |l.keys|
  {
    var vaults := map[id := l.vault];
    var member := l.vault.members[user];
    var offered := KeyUpdateOf(vaults, publicKeys, id, user);
    && offered.Some?
    && var update := offered.value;
    && (forall v :: v in update.links <==> member.keyVersion <= v < l.vault.keyVersion)
    && KeyPairId(user, update.recipientKeyVersion) in sec.private
    && var wrap := OpenKeyUpdate(sec.account[user], sec.private[KeyPairId(user, update.recipientKeyVersion)], update.recipientKeyVersion,
                                 member.keyVersion, l.keys[member.keyVersion - 1], update);
    && wrap == Some(WrapVaultKey(sec.account[user], l.keys[l.vault.keyVersion - 1], id, l.vault.keyVersion))
    && var accepted := AcceptKey(vaults, id, user, update.keyVersion, wrap.value);
    && accepted.Ok?
    && accepted.value.members[user] == Member(member.role, Active, l.vault.keyVersion, wrap, None)
  }

  /** What is offered is the current key sealed to the member, with the links down to theirs. */
  ghost predicate Offered(id: VaultId, sec: Secrets, l: Ledger, publicKeys: map<KeyPairId, PublicKey>, user: UserId)
    requires user in l.vault.members && 1 <= l.vault.keyVersion == |l.keys|
  {
    var offered := KeyUpdateOf(map[id := l.vault], publicKeys, id, user);
    && offered.Some?
    && var update := offered.value;
    && update.vaultId == id && update.keyVersion == l.vault.keyVersion
    && (forall v :: v in update.links <==> l.vault.members[user].keyVersion <= v < l.vault.keyVersion)
    && (forall v: nat :: 1 <= v < |l.keys| && v in update.links ==> update.links[v] == WrapPreviousVaultKey(l.keys[v], l.keys[v - 1], id, v))
    && KeyPairId(user, update.recipientKeyVersion) in sec.private
    && OpenSealedVaultKey(sec.private[KeyPairId(user, update.recipientKeyVersion)], update.sender, update.box, id, update.keyVersion)
       == Some(l.keys[l.vault.keyVersion - 1])
  }

  /** Catch-up: a member of an honest vault catches up however many rotations they missed. */
  lemma {:induction false} AnyMemberCatchesUp(id: VaultId, sec: Secrets, l: Ledger, publicKeys: map<KeyPairId, PublicKey>, user: UserId)
    requires HonestVault(id, sec, l) && !l.vault.deleted
    requires forall k :: k in sec.private ==> k in publicKeys && publicKeys[k] == PublicKey(sec.private[k])
    requires user in l.vault.members && l.vault.members[user].status == Active && l.vault.members[user].keyVersion < l.vault.keyVersion
    ensures user in sec.account && 1 <= l.vault.members[user].keyVersion && l.vault.keyVersion == |l.keys|
    ensures CatchesUp(id, sec, l, publicKeys, user)
  {
    hide KeyState, HonestMember, MemberState, Offered, CatchesUp;
    UpdateOffered(id, sec, l, publicKeys, user);
    OfferLeads(id, sec, l, publicKeys, user);
  }

  lemma {:induction false} UpdateOffered(id: VaultId, sec: Secrets, l: Ledger, publicKeys: map<KeyPairId, PublicKey>, user: UserId)
    requires HonestVault(id, sec, l) && !l.vault.deleted
    requires forall k :: k in sec.private ==> k in publicKeys && publicKeys[k] == PublicKey(sec.private[k])
    requires user in l.vault.members && l.vault.members[user].status == Active && l.vault.members[user].keyVersion < l.vault.keyVersion
    ensures user in sec.account && 1 <= l.vault.members[user].keyVersion && l.vault.keyVersion == |l.keys|
    ensures Offered(id, sec, l, publicKeys, user)
  {
    assert MemberState(l.vault, l.vault.members[user]) && HonestMember(id, sec, l.keys, user, l.vault.members[user]);
  }

  lemma {:induction false} OfferLeads(id: VaultId, sec: Secrets, l: Ledger, publicKeys: map<KeyPairId, PublicKey>, user: UserId)
    requires KeyState(l.vault) && !l.vault.deleted
    requires user in l.vault.members && l.vault.members[user].status == Active && user in sec.account
    requires 1 <= l.vault.members[user].keyVersion < l.vault.keyVersion == |l.keys|
    requires Offered(id, sec, l, publicKeys, user)
    ensures CatchesUp(id, sec, l, publicKeys, user)
  {
    hide KeyState, MemberState, KeyUpdateOf, WalkDown, AcceptKey, OpenSealedVaultKey, WrapVaultKey, WrapPreviousVaultKey;
    var update := KeyUpdateOf(map[id := l.vault], publicKeys, id, user).value;
    WalkReaches(id, l.keys, update.links, l.vault.keyVersion, l.vault.members[user].keyVersion);
    AcceptsOffer(id, l, user, WrapVaultKey(sec.account[user], l.keys[l.vault.keyVersion - 1], id, l.vault.keyVersion));
  }

  lemma {:induction false} AcceptsOffer(id: VaultId, l: Ledger, user: UserId, wrap: Cipher)
    requires KeyState(l.vault) && !l.vault.deleted
    requires user in l.vault.members && l.vault.members[user].status == Active && l.vault.members[user].keyVersion < l.vault.keyVersion
    ensures var accepted := AcceptKey(map[id := l.vault], id, user, l.vault.keyVersion, wrap);
            accepted.Ok? && accepted.value.members[user] == Member(l.vault.members[user].role, Active, l.vault.keyVersion, Some(wrap), None)
  {
    assert MemberState(l.vault, l.vault.members[user]);
  }
}
