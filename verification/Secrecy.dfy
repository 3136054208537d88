/**
 * Who can derive which vault key from the ciphertexts the server ever stored for a
 * vault: exactly the users given that version or a newer one. When no rotation is due,
 * the current key is known to exactly the vault's members and invitees.
 */
module Secrecy {
  import opened Prelude
  import opened Crypto
  import opened Tables
  import opened Vaults
  import opened VaultRuns
  import opened KeyChain

  // ---- What can be derived ----

  /** Whether some of these keys open a ciphertext. */
  predicate CanOpen(keys: set<Key>, cipher: Cipher) {
    match cipher
    case Aead(key, _, _) => key in keys
    case Box(_, recipient, _, _) => recipient.privateKey in keys
  }

  ghost predicate Closed(keys: set<Key>, sent: set<Cipher>) {
    forall cipher :: cipher in sent && CanOpen(keys, cipher) ==> cipher.plain in keys
  }

  /** A key follows from some keys and the ciphertexts: it is in every closed set around them. */
  ghost predicate Derives(own: set<Key>, sent: set<Cipher>, key: Key) {
    forall keys: set<Key> :: own <= keys && Closed(keys, sent) ==> key in keys
  }

  /** A user's own keys: their account key and the private keys of their keypairs. */
  function OwnKeys(sec: Secrets, user: UserId): set<Key> {
    (if user in sec.account then {sec.account[user]} else {}) + set k | k in sec.private && k.user == user :: sec.private[k]
  }

  /** No two users share a key; the vault's keys differ from each other and from everyone's own. */
  ghost predicate Fresh(sec: Secrets, keys: seq<Key>) {
    && (forall u, w, k :: u != w && k in OwnKeys(sec, u) ==> k !in OwnKeys(sec, w))
    && (forall i, j :: 0 <= i < j < |keys| ==> keys[i] != keys[j])
    && (forall u, i :: 0 <= i < |keys| ==> keys[i] !in OwnKeys(sec, u))
  }

  // ---- The ciphertexts of an honest vault ----

  ghost predicate IsWrap(id: VaultId, sec: Secrets, l: Ledger, cipher: Cipher, g: Given) {
    g in l.given && 1 <= g.keyVersion <= |l.keys| && HonestWrap(sec, l.keys[g.keyVersion - 1], id, g.keyVersion, cipher, g.user)
  }

  ghost predicate IsSeal(id: VaultId, sec: Secrets, l: Ledger, cipher: Cipher, g: Given, sender: KeyPairId, recipient: KeyPairId) {
    g in l.given && 1 <= g.keyVersion <= |l.keys| && recipient.user == g.user
    && HonestSeal(sec, l.keys[g.keyVersion - 1], id, g.keyVersion, cipher, sender, recipient)
  }

  ghost predicate IsLink(id: VaultId, l: Ledger, cipher: Cipher, v: nat) {
    1 <= v < |l.keys| && cipher == WrapPreviousVaultKey(l.keys[v], l.keys[v - 1], id, v)
  }

  ghost predicate Accounted(id: VaultId, sec: Secrets, l: Ledger, cipher: Cipher) {
    || (exists g :: IsWrap(id, sec, l, cipher, g))
    || (exists g, sender, recipient :: IsSeal(id, sec, l, cipher, g, sender, recipient))
    || (exists v :: IsLink(id, l, cipher, v))
  }

  /** A key version reached a user: a ciphertext only they open holds it. */
  ghost predicate Reached(id: VaultId, sec: Secrets, l: Ledger, g: Given) {
    && 1 <= g.keyVersion <= |l.keys|
    && exists cipher :: cipher in l.sent && cipher.plain == l.keys[g.keyVersion - 1] && CanOpen(OwnKeys(sec, g.user), cipher)
  }

  ghost predicate LinkSent(id: VaultId, l: Ledger, v: nat) {
    1 <= v < |l.keys| ==> WrapPreviousVaultKey(l.keys[v], l.keys[v - 1], id, v) in l.sent
  }

  ghost predicate Books(id: VaultId, sec: Secrets, l: Ledger) {
    && HonestVault(id, sec, l)
    && (forall cipher :: cipher in l.sent ==> Accounted(id, sec, l, cipher))
    && (forall g :: g in l.given ==> Reached(id, sec, l, g))
    && (forall v :: LinkSent(id, l, v))
    && (forall u :: u in l.vault.members ==> Given(u, l.vault.keyVersion) in l.given)
    && FlagState(l.vault, l.given)
  }

  // ---- Keeping the books ----

  lemma {:induction false} AccountedLater(id: VaultId, sec: Secrets, l: Ledger, next: Ledger, cipher: Cipher)
    requires Accounted(id, sec, l, cipher)
    requires l.given <= next.given && l.keys <= next.keys
    ensures Accounted(id, sec, next, cipher)
  {
    if g :| IsWrap(id, sec, l, cipher, g) {
      assert IsWrap(id, sec, next, cipher, g);
    } else if g, sender, recipient :| IsSeal(id, sec, l, cipher, g, sender, recipient) {
      assert IsSeal(id, sec, next, cipher, g, sender, recipient);
    } else {
      var v :| IsLink(id, l, cipher, v);
      assert IsLink(id, next, cipher, v);
    }
  }

  lemma {:induction false} ReachedLater(id: VaultId, sec: Secrets, l: Ledger, next: Ledger, g: Given)
    requires Reached(id, sec, l, g)
    requires l.sent <= next.sent && l.keys <= next.keys
    ensures Reached(id, sec, next, g)
  {
  }

  /** An honest wrap is opened by its user, an honest seal by its recipient. */
  lemma {:induction false} WrapOpens(sec: Secrets, key: Key, id: VaultId, keyVersion: nat, wrap: Cipher, user: UserId)
    requires HonestWrap(sec, key, id, keyVersion, wrap, user)
    ensures wrap.plain == key && CanOpen(OwnKeys(sec, user), wrap)
  {
  }

  lemma {:induction false} SealOpens(sec: Secrets, key: Key, id: VaultId, keyVersion: nat, box: Cipher, sender: KeyPairId, recipient: KeyPairId)
    requires HonestSeal(sec, key, id, keyVersion, box, sender, recipient)
    ensures box.plain == key && CanOpen(OwnKeys(sec, recipient.user), box)
  {
  }

  /** What one action sends is accounted for, and reaches those it gives a key. */
  lemma {:induction false} ActionAccounted(id: VaultId, sec: Secrets, l: Ledger, keyPairs: map<UserId, nat>, action: Action, newKey: Key)
    requires HonestVault(id, sec, l) && WellFormed(action)
    requires HonestAction(id, sec, l.keys, action, newKey)
    requires Outcome(id, l, keyPairs, action).Ok?
    ensures var next := After(id, l, keyPairs, action, newKey);
            && (forall cipher :: cipher in CiphersOf(action) ==> Accounted(id, sec, next, cipher))
            && (forall g :: g in NewlyGiven(next.vault, action) ==> Reached(id, sec, next, g))
  {
    hide Accounted, Reached, HonestVault, HonestSeal, HonestWrap, After, Outcome, ValidRotation;
    NotNew(id, l, keyPairs, action);
    LedgerGrows(id, l, keyPairs, action, newKey);
    var next := After(id, l, keyPairs, action, newKey);
    match action
    case Inviting(actor, x) =>
      InviteAccounted(id, sec, next, actor, x);
    case Accepting(user, keyVersion, wrap) =>
      WrapAccounted(id, sec, next, user, keyVersion, wrap);
    case Rotating(actor, x) =>
      RotationAccounted(id, sec, l, keyPairs, actor, x, newKey);
    case _ =>
  }

  /** Nothing is created or registered under an id that is taken. */
  lemma {:induction false} NotNew(id: VaultId, l: Ledger, keyPairs: map<UserId, nat>, action: Action)
    requires Outcome(id, l, keyPairs, action).Ok?
    ensures !action.Registering? && !action.Creating?
  {
  }

  lemma {:induction false} InviteAccounted(id: VaultId, sec: Secrets, next: Ledger, actor: UserId, x: Invitation)
    requires x.invitee.Some? && 1 <= x.keyVersion <= |next.keys|
    requires HonestSeal(sec, next.keys[x.keyVersion - 1], id, x.keyVersion, x.box, KeyPairId(actor, x.senderKeyVersion), KeyPairId(x.invitee.value, x.recipientKeyVersion))
    requires Given(x.invitee.value, x.keyVersion) in next.given && x.box in next.sent
    ensures Accounted(id, sec, next, x.box) && Reached(id, sec, next, Given(x.invitee.value, x.keyVersion))
  {
    var g := Given(x.invitee.value, x.keyVersion);
    var sender, recipient := KeyPairId(actor, x.senderKeyVersion), KeyPairId(x.invitee.value, x.recipientKeyVersion);
    SealOpens(sec, next.keys[x.keyVersion - 1], id, x.keyVersion, x.box, sender, recipient);
    assert IsSeal(id, sec, next, x.box, g, sender, recipient);
  }

  lemma {:induction false} WrapAccounted(id: VaultId, sec: Secrets, next: Ledger, user: UserId, keyVersion: nat, wrap: Cipher)
    requires 1 <= keyVersion <= |next.keys| && HonestWrap(sec, next.keys[keyVersion - 1], id, keyVersion, wrap, user)
    requires Given(user, keyVersion) in next.given && wrap in next.sent
    ensures Accounted(id, sec, next, wrap) && Reached(id, sec, next, Given(user, keyVersion))
  {
    WrapOpens(sec, next.keys[keyVersion - 1], id, keyVersion, wrap, user);
    assert IsWrap(id, sec, next, wrap, Given(user, keyVersion));
  }

  lemma {:induction false} RotationAccounted(id: VaultId, sec: Secrets, l: Ledger, keyPairs: map<UserId, nat>, actor: UserId, x: Rotation, newKey: Key)
    requires HonestVault(id, sec, l) && ValidRotation(x)
    requires HonestAction(id, sec, l.keys, Rotating(actor, x), newKey)
    requires Outcome(id, l, keyPairs, Rotating(actor, x)).Ok?
    ensures var action := Rotating(actor, x);
            var next := After(id, l, keyPairs, action, newKey);
            && (forall cipher :: cipher in CiphersOf(action) ==> Accounted(id, sec, next, cipher))
            && (forall g :: g in NewlyGiven(next.vault, action) ==> Reached(id, sec, next, g))
  {
    hide SealMembers, SealsMembers, HonestMember, KeyState, HonestSeal, HonestWrap, Accounted, Reached, CanOpen;
    var action := Rotating(actor, x);
    var next := After(id, l, keyPairs, action, newKey);
    var k := x.keyVersion;
    RotationFacts(id, sec, l, keyPairs, actor, x);
    assert next.keys[k - 1] == newKey && next.keys[k - 2] == l.keys[k - 2];
    forall cipher | cipher in CiphersOf(action)
      ensures Accounted(id, sec, next, cipher)
    {
      if cipher == x.wrap {
        RotatedWrap(id, sec, next, actor, x, newKey);
      } else if cipher == x.link {
        RotatedLink(id, sec, next, x, newKey);
      } else {
        var i :| 0 <= i < |x.memberKeys| && x.memberKeys[i].box == cipher;
        RotatedSeal(id, sec, next, actor, x, newKey, i);
      }
    }
    forall g | g in NewlyGiven(next.vault, action)
      ensures Reached(id, sec, next, g)
    {
      if g.user == actor {
        RotatedWrap(id, sec, next, actor, x, newKey);
      } else {
        var i :| 0 <= i < |x.memberKeys| && x.memberKeys[i].userId == g.user;
        RotatedSeal(id, sec, next, actor, x, newKey, i);
      }
    }
  }

  lemma {:induction false} RotationGoesThrough(id: VaultId, l: Ledger, keyPairs: map<UserId, nat>, actor: UserId, x: Rotation)
    requires Outcome(id, l, keyPairs, Rotating(actor, x)).Ok?
    ensures actor in l.vault.members && SealsMembers(l.vault, keyPairs, actor, x) && x.keyVersion == l.vault.keyVersion + 1
    ensures Outcome(id, l, keyPairs, Rotating(actor, x)).value.keyVersion == x.keyVersion
    ensures Outcome(id, l, keyPairs, Rotating(actor, x)).value.members.Keys == l.vault.members.Keys
  {
    hide SealsMembers;
    RotatingOutcome(map[id := l.vault], keyPairs, id, actor, x);
  }

  lemma {:induction false} RotationFacts(id: VaultId, sec: Secrets, l: Ledger, keyPairs: map<UserId, nat>, actor: UserId, x: Rotation)
    requires HonestVault(id, sec, l) && ValidRotation(x)
    requires Outcome(id, l, keyPairs, Rotating(actor, x)).Ok?
    ensures var after := Outcome(id, l, keyPairs, Rotating(actor, x)).value;
            && x.keyVersion == l.vault.keyVersion + 1 == after.keyVersion
            && after.members.Keys == l.vault.members.Keys
            && actor in after.members
            && (forall u :: u in after.members && u != actor ==> exists i :: 0 <= i < |x.memberKeys| && x.memberKeys[i].userId == u)
            && (forall i :: 0 <= i < |x.memberKeys| ==> x.memberKeys[i].userId in after.members)
  {
    hide SealsMembers, HonestMember, KeyState, Outcome, ValidRotation;
    RotationGoesThrough(id, l, keyPairs, actor, x);
    SealsExactly(l.vault, keyPairs, actor, x);
    forall u | u in l.vault.members && u != actor
      ensures exists i :: 0 <= i < |x.memberKeys| && x.memberKeys[i].userId == u
    {
      assert u in SealedUsers(x.memberKeys);
    }
    forall i | 0 <= i < |x.memberKeys|
      ensures x.memberKeys[i].userId in l.vault.members
    {
      assert x.memberKeys[i].userId in SealedUsers(x.memberKeys);
    }
  }

  lemma {:induction false} RotatedWrap(id: VaultId, sec: Secrets, next: Ledger, actor: UserId, x: Rotation, newKey: Key)
    requires HonestWrap(sec, newKey, id, x.keyVersion, x.wrap, actor)
    requires 1 <= x.keyVersion <= |next.keys| && next.keys[x.keyVersion - 1] == newKey
    requires Given(actor, x.keyVersion) in next.given && x.wrap in next.sent
    ensures Accounted(id, sec, next, x.wrap) && Reached(id, sec, next, Given(actor, x.keyVersion))
  {
    WrapOpens(sec, newKey, id, x.keyVersion, x.wrap, actor);
    assert IsWrap(id, sec, next, x.wrap, Given(actor, x.keyVersion));
  }

  lemma {:induction false} RotatedLink(id: VaultId, sec: Secrets, next: Ledger, x: Rotation, newKey: Key)
    requires 2 <= x.keyVersion <= |next.keys| && next.keys[x.keyVersion - 1] == newKey
    requires x.link == WrapPreviousVaultKey(newKey, next.keys[x.keyVersion - 2], id, x.keyVersion - 1)
    ensures Accounted(id, sec, next, x.link)
  {
    assert IsLink(id, next, x.link, x.keyVersion - 1);
  }

  lemma {:induction false} RotatedSeal(id: VaultId, sec: Secrets, next: Ledger, actor: UserId, x: Rotation, newKey: Key, i: nat)
    requires i < |x.memberKeys|
    requires HonestSeal(sec, newKey, id, x.keyVersion, x.memberKeys[i].box, KeyPairId(actor, x.senderKeyVersion),
                        KeyPairId(x.memberKeys[i].userId, x.memberKeys[i].recipientKeyVersion))
    requires 1 <= x.keyVersion <= |next.keys| && next.keys[x.keyVersion - 1] == newKey
    requires Given(x.memberKeys[i].userId, x.keyVersion) in next.given && x.memberKeys[i].box in next.sent
    ensures Accounted(id, sec, next, x.memberKeys[i].box) && Reached(id, sec, next, Given(x.memberKeys[i].userId, x.keyVersion))
  {
    var key := x.memberKeys[i];
    SealOpens(sec, newKey, id, x.keyVersion, key.box, KeyPairId(actor, x.senderKeyVersion), KeyPairId(key.userId, key.recipientKeyVersion));
    assert IsSeal(id, sec, next, key.box, Given(key.userId, x.keyVersion), KeyPairId(actor, x.senderKeyVersion), KeyPairId(key.userId, key.recipientKeyVersion));
  }

  lemma {:induction false} MembersGiven(id: VaultId, sec: Secrets, l: Ledger, keyPairs: map<UserId, nat>, action: Action, newKey: Key)
    requires HonestVault(id, sec, l) && WellFormed(action)
    requires forall u :: u in l.vault.members ==> Given(u, l.vault.keyVersion) in l.given
    requires Outcome(id, l, keyPairs, action).Ok?
    ensures var next := After(id, l, keyPairs, action, newKey);
            forall u :: u in next.vault.members ==> Given(u, next.vault.keyVersion) in next.given
  {
    hide HonestMember, KeyState;
    if action.Rotating? {
      RotationFacts(id, sec, l, keyPairs, action.actor, action.rotation);
    }
  }

  lemma {:induction false} LinksKept(id: VaultId, sec: Secrets, l: Ledger, keyPairs: map<UserId, nat>, action: Action, newKey: Key, v: nat)
    requires HonestVault(id, sec, l) && WellFormed(action)
    requires HonestAction(id, sec, l.keys, action, newKey)
    requires LinkSent(id, l, v)
    requires Outcome(id, l, keyPairs, action).Ok?
    ensures LinkSent(id, After(id, l, keyPairs, action, newKey), v)
  {
    hide HonestMember, KeyState, NewlyGiven, HonestSeal, HonestWrap;
    if action.Rotating? {
      RotationFacts(id, sec, l, keyPairs, action.actor, action.rotation);
      assert action.rotation.link in CiphersOf(action);
    }
  }

  /** The books stay in order through every honest action that goes through. */
  lemma {:induction false} BooksKept(id: VaultId, sec: Secrets, l: Ledger, keyPairs: map<UserId, nat>, action: Action, newKey: Key)
    requires Books(id, sec, l) && WellFormed(action)
    requires HonestAction(id, sec, l.keys, action, newKey)
    requires Outcome(id, l, keyPairs, action).Ok?
    ensures Books(id, sec, After(id, l, keyPairs, action, newKey))
  {
    var next := After(id, l, keyPairs, action, newKey);
    LedgerGrows(id, l, keyPairs, action, newKey);
    hide After, Accounted, Reached, FlagState, HonestVault, LinkSent, HonestAction;
    StaysHonest(id, sec, l, keyPairs, action, newKey);
    ActionAccounted(id, sec, l, keyPairs, action, newKey);
    MembersGiven(id, sec, l, keyPairs, action, newKey);
    FlagKept(id, sec, l, keyPairs, action);
    forall cipher | cipher in next.sent
      ensures Accounted(id, sec, next, cipher)
    {
      if cipher in l.sent {
        AccountedLater(id, sec, l, next, cipher);
      }
    }
    forall g | g in next.given
      ensures Reached(id, sec, next, g)
    {
      if g in l.given {
        ReachedLater(id, sec, l, next, g);
      }
    }
    forall v
      ensures LinkSent(id, next, v)
    {
      LinksKept(id, sec, l, keyPairs, action, newKey, v);
    }
  }

  lemma {:induction false} FlagKept(id: VaultId, sec: Secrets, l: Ledger, keyPairs: map<UserId, nat>, action: Action)
    requires HonestVault(id, sec, l) && FlagState(l.vault, l.given)
    requires WellFormed(action) && Outcome(id, l, keyPairs, action).Ok?
    ensures var vault := Outcome(id, l, keyPairs, action).value; FlagState(vault, l.given + NewlyGiven(vault, action))
  {
    hide FlagState, KeyState, NewlyGiven, OutcomeOf;
    StepKeepsFlag(map[id := l.vault], keyPairs, id, action, l.given);
  }

  lemma {:induction false} LedgerGrows(id: VaultId, l: Ledger, keyPairs: map<UserId, nat>, action: Action, newKey: Key)
    requires Outcome(id, l, keyPairs, action).Ok?
    ensures var next := After(id, l, keyPairs, action, newKey);
            && next.vault == Outcome(id, l, keyPairs, action).value
            && l.given <= next.given && l.sent <= next.sent && l.keys <= next.keys
            && next.given == l.given + NewlyGiven(next.vault, action) && next.sent == l.sent + CiphersOf(action)
  {
    hide OutcomeOf, NewlyGiven, CiphersOf;
  }

  // ---- Who derives what ----

  /** The keys a user is entitled to: their own, and every version up to one they were given. */
  function Entitled(sec: Secrets, l: Ledger, user: UserId): set<Key> {
    OwnKeys(sec, user) + set j | 0 <= j < |l.keys| && GivenFrom(l.given, user, j + 1) :: l.keys[j]
  }

  /** Whether a user was given this version or a newer one. */
  predicate GivenFrom(given: set<Given>, user: UserId, version: nat) {
    exists g :: g in given && g.user == user && g.keyVersion >= version
  }

  /** A vault key among the entitled ones is one the user was given, or an older one. */
  lemma {:induction false} EntitledKey(sec: Secrets, l: Ledger, user: UserId, j: nat)
    requires Fresh(sec, l.keys) && j < |l.keys|
    ensures l.keys[j] in Entitled(sec, l, user) <==> GivenFrom(l.given, user, j + 1)
  {
    if l.keys[j] in Entitled(sec, l, user) {
      var i :| 0 <= i < |l.keys| && GivenFrom(l.given, user, i + 1) && l.keys[i] == l.keys[j];
      assert i == j;
    }
  }

  /** Nothing outside the entitled keys opens with them. */
  lemma {:induction false} EntitledClosed(id: VaultId, sec: Secrets, l: Ledger, user: UserId)
    requires Books(id, sec, l) && Fresh(sec, l.keys)
    ensures Closed(Entitled(sec, l, user), l.sent)
  {
    forall cipher | cipher in l.sent && CanOpen(Entitled(sec, l, user), cipher)
      ensures cipher.plain in Entitled(sec, l, user)
    {
      OpenedIsEntitled(id, sec, l, user, cipher);
    }
  }

  lemma {:induction false} OpenedIsEntitled(id: VaultId, sec: Secrets, l: Ledger, user: UserId, cipher: Cipher)
    requires Fresh(sec, l.keys)
    requires Accounted(id, sec, l, cipher) && CanOpen(Entitled(sec, l, user), cipher)
    ensures cipher.plain in Entitled(sec, l, user)
  {
    hide Entitled, Fresh, OwnKeys;
    if g :| IsWrap(id, sec, l, cipher, g) {
      OwnOpens(sec, l, user, g.user, sec.account[g.user]);
      GivenIsEntitled(sec, l, user, g);
    } else if g, sender, recipient :| IsSeal(id, sec, l, cipher, g, sender, recipient) {
      OwnOpens(sec, l, user, g.user, sec.private[recipient]);
      GivenIsEntitled(sec, l, user, g);
    } else {
      var v: nat :| IsLink(id, l, cipher, v);
      EntitledKey(sec, l, user, v);
      var g :| g in l.given && g.user == user && g.keyVersion >= v + 1;
      assert GivenFrom(l.given, user, v);
      EntitledKey(sec, l, user, v - 1);
    }
  }

  /** Of the users' own keys, the entitled ones are the user's. */
  lemma {:induction false} OwnOpens(sec: Secrets, l: Ledger, user: UserId, owner: UserId, key: Key)
    requires Fresh(sec, l.keys)
    requires (owner in sec.account && key == sec.account[owner]) || exists k :: k in sec.private && k.user == owner && key == sec.private[k]
    ensures key in Entitled(sec, l, user) ==> owner == user
  {
    assert key in OwnKeys(sec, owner);
  }

  lemma {:induction false} GivenIsEntitled(sec: Secrets, l: Ledger, user: UserId, g: Given)
    requires g in l.given && g.user == user && 1 <= g.keyVersion <= |l.keys|
    ensures l.keys[g.keyVersion - 1] in Entitled(sec, l, user)
  {
    assert GivenFrom(l.given, user, g.keyVersion - 1 + 1);
  }

  /** From a given version every older one follows, link by link. */
  lemma {:induction false} LinksDerive(id: VaultId, sec: Secrets, l: Ledger, keys: set<Key>, from: nat, to: nat)
    requires Books(id, sec, l) && Closed(keys, l.sent)
    requires to <= from < |l.keys| && l.keys[from] in keys
    ensures l.keys[to] in keys
    decreases from
  {
    if to < from {
      assert LinkSent(id, l, from);
      var link := WrapPreviousVaultKey(l.keys[from], l.keys[from - 1], id, from);
      assert CanOpen(keys, link);
      LinksDerive(id, sec, l, keys, from - 1, to);
    }
  }

  lemma {:induction false} GivenDerives(id: VaultId, sec: Secrets, l: Ledger, user: UserId, g: Given, j: nat)
    requires Books(id, sec, l)
    requires g in l.given && g.user == user && j < g.keyVersion
    ensures j < |l.keys| && Derives(OwnKeys(sec, user), l.sent, l.keys[j])
  {
    hide HonestVault, Accounted, FlagState, LinkSent, OwnKeys;
    assert Reached(id, sec, l, g);
    var cipher :| cipher in l.sent && cipher.plain == l.keys[g.keyVersion - 1] && CanOpen(OwnKeys(sec, user), cipher);
    forall keys: set<Key> | OwnKeys(sec, user) <= keys && Closed(keys, l.sent)
      ensures l.keys[j] in keys
    {
      assert CanOpen(keys, cipher);
      LinksDerive(id, sec, l, keys, g.keyVersion - 1, j);
    }
  }

  /**
   * Secrecy: from their own keys and everything the server ever stored for the vault, a
   * user derives the key of version `j + 1` exactly when they were given it or a newer one.
   */
  lemma {:induction false} DerivesExactly(id: VaultId, sec: Secrets, l: Ledger, user: UserId, j: nat)
    requires Books(id, sec, l) && Fresh(sec, l.keys) && j < |l.keys|
    ensures Derives(OwnKeys(sec, user), l.sent, l.keys[j]) <==> GivenFrom(l.given, user, j + 1)
  {
    hide Books, Fresh, Closed, OwnKeys;
    EntitledClosed(id, sec, l, user);
    EntitledKey(sec, l, user, j);
    if Derives(OwnKeys(sec, user), l.sent, l.keys[j]) {
      assert OwnKeys(sec, user) <= Entitled(sec, l, user);
    }
    if g :| g in l.given && g.user == user && g.keyVersion >= j + 1 {
      GivenDerives(id, sec, l, user, g, j);
    }
  }

  /** When no rotation is due, the current key is derivable by exactly the members and invitees. */
  lemma {:induction false} CurrentKeyIsTheMembers(id: VaultId, sec: Secrets, l: Ledger, user: UserId)
    requires Books(id, sec, l) && Fresh(sec, l.keys) && !l.vault.rotationNeeded
    ensures 1 <= l.vault.keyVersion == |l.keys|
    ensures Derives(OwnKeys(sec, user), l.sent, l.keys[l.vault.keyVersion - 1]) <==> user in l.vault.members
  {
    hide Accounted, Reached, LinkSent, Derives, Fresh, HonestMember;
    DerivesExactly(id, sec, l, user, l.vault.keyVersion - 1);
    if g :| g in l.given && g.user == user && g.keyVersion >= l.vault.keyVersion {
      assert g.keyVersion == l.vault.keyVersion;
    }
    if user in l.vault.members {
      var g := Given(user, l.vault.keyVersion);
      assert g in l.given && g.keyVersion >= l.vault.keyVersion;
    }
  }

  // ---- Runs ----

  /** A vault as registered with these keys, oldest first; `vault.create` makes a shared one with a single key. */
  function UploadOf(id: VaultId, sec: Secrets, user: UserId, kind: Kind, keys: seq<Key>): Upload
    requires user in sec.account && keys != []
  {
    Upload(kind, |keys|, WrapVaultKey(sec.account[user], keys[|keys| - 1], id, |keys|),
           map v: nat | 1 <= v < |keys| :: LinkAt(id, keys, v))
  }

  /** The link down to version `v`. */
  function LinkAt(id: VaultId, keys: seq<Key>, v: nat): Cipher
    requires 1 <= v < |keys|
  {
    WrapPreviousVaultKey(keys[v], keys[v - 1], id, v)
  }

  function Start(id: VaultId, sec: Secrets, user: UserId, kind: Kind, keys: seq<Key>): Ledger
    requires user in sec.account && keys != []
  {
    var upload := UploadOf(id, sec, user, kind, keys);
    Ledger(RegisteredVault(user, upload), keys, {Given(user, |keys|)}, {upload.wrap} + upload.links.Values)
  }

  /** Creating is registering a shared vault with one key. */
  lemma {:induction false} CreatedIsRegistered(id: VaultId, sec: Secrets, user: UserId, key: Key)
    requires user in sec.account
    ensures Start(id, sec, user, Shared, [key]).vault == NewVault(user, WrapVaultKey(sec.account[user], key, id, 1))
  {
    assert UploadOf(id, sec, user, Shared, [key]).links == map[];
  }

  /** One step of a vault's life: an honest action that goes through or is refused, or a push. */
  ghost predicate LedgerStep(id: VaultId, sec: Secrets, l: Ledger, next: Ledger) {
    || (exists keyPairs, action, newKey ::
          && WellFormed(action) && HonestAction(id, sec, l.keys, action, newKey)
          && (if Outcome(id, l, keyPairs, action).Ok? then next == After(id, l, keyPairs, action, newKey) else next == l))
    || (exists lastSeq, usedBytes :: next == l.(vault := l.vault.(lastSeq := lastSeq, usedBytes := usedBytes)))
  }

  /** A vault's life from its creation or registration. */
  ghost predicate Life(id: VaultId, sec: Secrets, ls: seq<Ledger>) {
    && |ls| > 0
    && (exists user, kind, keys :: user in sec.account && keys != [] && ls[0] == Start(id, sec, user, kind, keys))
    && (forall i :: 0 <= i < |ls| - 1 ==> LedgerStep(id, sec, ls[i], ls[i + 1]))
  }

  lemma {:induction false} StartBooks(id: VaultId, sec: Secrets, user: UserId, kind: Kind, keys: seq<Key>)
    requires user in sec.account && keys != []
    ensures Books(id, sec, Start(id, sec, user, kind, keys))
  {
    hide Reached, Accounted, HonestVault, UploadOf, LinkSent;
    var l := Start(id, sec, user, kind, keys);
    var upload := UploadOf(id, sec, user, kind, keys);
    StartWrap(id, sec, user, kind, keys);
    StartHonest(id, sec, user, kind, keys);
    forall cipher | cipher in upload.links.Values
      ensures Accounted(id, sec, l, cipher)
    {
      StartLinks(id, sec, user, kind, keys, cipher, 0);
    }
    forall v: nat
      ensures LinkSent(id, l, v)
    {
      StartLinks(id, sec, user, kind, keys, upload.wrap, v);
    }
  }

  lemma {:induction false} StartWrap(id: VaultId, sec: Secrets, user: UserId, kind: Kind, keys: seq<Key>)
    requires user in sec.account && keys != []
    ensures var l := Start(id, sec, user, kind, keys);
            Accounted(id, sec, l, UploadOf(id, sec, user, kind, keys).wrap) && Reached(id, sec, l, Given(user, |keys|))
  {
    WrapAccounted(id, sec, Start(id, sec, user, kind, keys), user, |keys|, UploadOf(id, sec, user, kind, keys).wrap);
  }

  lemma {:induction false} StartHonest(id: VaultId, sec: Secrets, user: UserId, kind: Kind, keys: seq<Key>)
    requires user in sec.account && keys != []
    ensures HonestVault(id, sec, Start(id, sec, user, kind, keys))
  {
    var l := Start(id, sec, user, kind, keys);
    assert MemberState(l.vault, l.vault.members[user]);
  }

  lemma {:induction false} StartLinks(id: VaultId, sec: Secrets, user: UserId, kind: Kind, keys: seq<Key>, cipher: Cipher, v: nat)
    requires user in sec.account && keys != []
    ensures var l := Start(id, sec, user, kind, keys);
            && (cipher in UploadOf(id, sec, user, kind, keys).links.Values ==> Accounted(id, sec, l, cipher))
            && LinkSent(id, l, v)
  {
    var l := Start(id, sec, user, kind, keys);
    var links := UploadOf(id, sec, user, kind, keys).links;
    if cipher in links.Values {
      var v :| v in links && links[v] == cipher;
      assert IsLink(id, l, cipher, v);
    }
    if 1 <= v < |keys| {
      assert links[v] in links.Values;
    }
  }

  lemma {:induction false} CountersKeepBooks(id: VaultId, sec: Secrets, l: Ledger, lastSeq: nat, usedBytes: int)
    requires Books(id, sec, l)
    ensures Books(id, sec, l.(vault := l.vault.(lastSeq := lastSeq, usedBytes := usedBytes)))
  {
    hide Accounted, Reached, LinkSent, HonestVault;
    var next := l.(vault := l.vault.(lastSeq := lastSeq, usedBytes := usedBytes));
    CountersStayHonest(id, sec, l, lastSeq, usedBytes);
    forall cipher | cipher in next.sent
      ensures Accounted(id, sec, next, cipher)
    {
      AccountedLater(id, sec, l, next, cipher);
    }
    forall g | g in next.given
      ensures Reached(id, sec, next, g)
    {
      ReachedLater(id, sec, l, next, g);
    }
    forall v
      ensures LinkSent(id, next, v)
    {
      assert LinkSent(id, l, v);
      SameLinks(id, l, next, v);
    }
  }

  lemma {:induction false} SameLinks(id: VaultId, l: Ledger, next: Ledger, v: nat)
    requires LinkSent(id, l, v) && next.keys == l.keys && next.sent == l.sent
    ensures LinkSent(id, next, v)
  {
  }

  lemma {:induction false} CountersStayHonest(id: VaultId, sec: Secrets, l: Ledger, lastSeq: nat, usedBytes: int)
    requires HonestVault(id, sec, l)
    ensures HonestVault(id, sec, l.(vault := l.vault.(lastSeq := lastSeq, usedBytes := usedBytes)))
  {
    hide HonestMember;
    var next := l.(vault := l.vault.(lastSeq := lastSeq, usedBytes := usedBytes));
    forall u | u in next.vault.members
      ensures MemberState(next.vault, next.vault.members[u])
    {
      assert MemberState(l.vault, l.vault.members[u]);
    }
  }

  /** All through a vault's life its books are in order; so it is honest, and `DerivesExactly` holds of it. */
  lemma {:induction false} LifeKeepsBooks(id: VaultId, sec: Secrets, ls: seq<Ledger>, i: nat)
    requires Life(id, sec, ls) && i < |ls|
    ensures Books(id, sec, ls[i])
  {
    hide Books, HonestAction, Outcome, After, WellFormed, Start;
    if i == 0 {
      var user, kind, keys :| user in sec.account && keys != [] && ls[0] == Start(id, sec, user, kind, keys);
      StartBooks(id, sec, user, kind, keys);
    } else {
      LifeKeepsBooks(id, sec, ls, i - 1);
      var l, next := ls[i - 1], ls[i - 1 + 1];
      assert LedgerStep(id, sec, l, next);
      if lastSeq, usedBytes :| next == l.(vault := l.vault.(lastSeq := lastSeq, usedBytes := usedBytes)) {
        CountersKeepBooks(id, sec, l, lastSeq, usedBytes);
      } else {
        var keyPairs, action, newKey :|
          && WellFormed(action) && HonestAction(id, sec, l.keys, action, newKey)
          && (if Outcome(id, l, keyPairs, action).Ok? then next == After(id, l, keyPairs, action, newKey) else next == l);
        if Outcome(id, l, keyPairs, action).Ok? {
          BooksKept(id, sec, l, keyPairs, action, newKey);
        }
      }
    }
  }

  /** At any point of a vault's life, every active member behind its current key catches up. */
  lemma {:induction false} LifeCatchesUp(id: VaultId, sec: Secrets, ls: seq<Ledger>, i: nat, publicKeys: map<KeyPairId, PublicKey>, user: UserId)
    requires Life(id, sec, ls) && i < |ls| && !ls[i].vault.deleted
    requires forall k :: k in sec.private ==> k in publicKeys && publicKeys[k] == PublicKey(sec.private[k])
    requires user in ls[i].vault.members && ls[i].vault.members[user].status == Active && ls[i].vault.members[user].keyVersion < ls[i].vault.keyVersion
    ensures user in sec.account && 1 <= ls[i].vault.members[user].keyVersion && ls[i].vault.keyVersion == |ls[i].keys|
    ensures CatchesUp(id, sec, ls[i], publicKeys, user)
  {
    hide Life, HonestVault, CatchesUp, Accounted, Reached, LinkSent, FlagState;
    LifeKeepsBooks(id, sec, ls, i);
    AnyMemberCatchesUp(id, sec, ls[i], publicKeys, user);
  }

  /** At any point of a vault's life a user derives a key version exactly when they were given it or a newer one. */
  lemma {:induction false} LifeDerivesExactly(id: VaultId, sec: Secrets, ls: seq<Ledger>, i: nat, user: UserId, j: nat)
    requires Life(id, sec, ls) && i < |ls| && Fresh(sec, ls[i].keys) && j < |ls[i].keys|
    ensures Derives(OwnKeys(sec, user), ls[i].sent, ls[i].keys[j]) <==> GivenFrom(ls[i].given, user, j + 1)
  {
    hide Life, Books, Fresh, Derives;
    LifeKeepsBooks(id, sec, ls, i);
    DerivesExactly(id, sec, ls[i], user, j);
  }

  /** At any point of a vault's life with no rotation due, exactly its members and invitees derive its current key. */
  lemma {:induction false} LifeSecrecy(id: VaultId, sec: Secrets, ls: seq<Ledger>, i: nat, user: UserId)
    requires Life(id, sec, ls) && i < |ls| && Fresh(sec, ls[i].keys) && !ls[i].vault.rotationNeeded
    ensures 1 <= ls[i].vault.keyVersion == |ls[i].keys|
    ensures Derives(OwnKeys(sec, user), ls[i].sent, ls[i].keys[ls[i].vault.keyVersion - 1]) <==> user in ls[i].vault.members
  {
    hide Life, Books, Fresh, Derives;
    LifeKeepsBooks(id, sec, ls, i);
    CurrentKeyIsTheMembers(id, sec, ls[i], user);
  }
}
