/**
 * The keys a device holds in memory. Key buffers are arrays: what is opened and not
 * kept is zeroed, and a reload replaces the held keys all at once or not at all.
 */
module SecretsStore {
  import opened Prelude
  import opened Crypto
  import opened Tables
  import opened Vaults
  import opened VaultRuns
  import opened KeyChain

  type Buffer = array<bv8>

  predicate Zeroed(buffer: Buffer)
    reads buffer
  {
    forall i :: 0 <= i < buffer.Length ==> buffer[i] == 0
  }

  method Wipe(buffer: Buffer)
    modifies buffer
    ensures Zeroed(buffer)
  {
    for i := 0 to buffer.Length
      invariant forall j :: 0 <= j < i ==> buffer[j] == 0
    {
      buffer[i] := 0;
    }
  }

  method WipeAll(buffers: set<Buffer>)
    modifies buffers
    ensures forall b :: b in buffers ==> Zeroed(b)
  {
    var todo := buffers;
    while todo != {}
      invariant todo <= buffers
      invariant forall b :: b in buffers && b !in todo ==> Zeroed(b)
      decreases todo
    {
      var b :| b in todo;
      Wipe(b);
      todo := todo - {b};
    }
  }

  /** Constant-time comparison: every byte is looked at. */
  method EqualBytes(a: Buffer, b: Buffer) returns (equal: bool)
    ensures equal <==> a[..] == b[..]
  {
    if a.Length != b.Length {
      assert |a[..]| != |b[..]|;
      return false;
    }
    var diff: bv8 := 0;
    for i := 0 to a.Length
      invariant diff == 0 <==> forall j :: 0 <= j < i ==> a[j] == b[j]
    {
      OrXor(diff, a[i], b[i]);
      diff := diff | (a[i] ^ b[i]);
    }
    equal := diff == 0;
    if !equal {
      var j :| 0 <= j < a.Length && a[j] != b[j];
      assert a[..][j] != b[..][j];
    }
  }

  lemma {:induction false} OrXor(diff: bv8, x: bv8, y: bv8)
    ensures diff | (x ^ y) == 0 <==> diff == 0 && x == y
  {
  }

  /** Decryption allocates: every buffer it ever returned is on record. */
  class Decryptor {
    ghost var made: set<Buffer>

    /** The plaintext in a buffer of its own, or null when the ciphertext does not open. */
    method Plain(plain: Option<Key>) returns (buffer: array?<bv8>)
      modifies this
      ensures buffer == null <==> plain.None?
      ensures buffer == null ==> made == old(made)
      ensures buffer != null ==> fresh(buffer) && buffer[..] == plain.value && made == old(made) + {buffer}
    {
      if plain.None? {
        return null;
      }
      var b := new bv8[|plain.value|];
      for i := 0 to |plain.value|
        invariant b[..i] == plain.value[..i] && made == old(made)
      {
        b[i] := plain.value[i];
      }
      assert b[..] == plain.value;
      made := made + {b};
      buffer := b;
    }
  }

  datatype KeyId = KeyId(vaultId: VaultId, keyVersion: nat)

  /** A vault as the server lists it to a member: their wrap of its key and the links below. */
  datatype MemberVault = MemberVault(vaultId: VaultId, kind: Kind, keyVersion: nat, wrap: Cipher, previousKeys: map<nat, Cipher>)

  // ---- Which keys a list opens ----

  /** The key of version `v` of a listed vault: its current key opened, its links walked down. */
  function KeyAt(accountKey: Key, vault: MemberVault, v: nat): Option<Key>
    requires v <= vault.keyVersion
  {
    var current := UnwrapVaultKey(accountKey, vault.wrap, vault.vaultId, vault.keyVersion);
    if current.None? then None else WalkDown(current.value, vault.vaultId, vault.previousKeys, vault.keyVersion, v)
  }

  predicate Opens(accountKey: Key, vault: MemberVault) {
    UnwrapVaultKey(accountKey, vault.wrap, vault.vaultId, vault.keyVersion).Some?
  }

  /** A vault as the server lists it to an active member: their wrap, and the links below it (`memberVaults`). */
  function ListedVault(vault: Vault, id: VaultId, user: UserId): Option<MemberVault> {
    if vault.deleted || user !in vault.members || vault.members[user].status != Active || vault.members[user].wrap.None? then None
    else
      var member := vault.members[user];
      Some(MemberVault(id, vault.kind, member.keyVersion, member.wrap.value, map v | v in vault.links && v < member.keyVersion :: vault.links[v]))
  }

  /** A member of an honest vault is listed the links below their own key, and opens every key up to it. */
  lemma {:induction false} MemberOpensHistory(id: VaultId, sec: Secrets, l: Ledger, user: UserId, v: nat)
    requires HonestVault(id, sec, l) && !l.vault.deleted
    requires user in l.vault.members && l.vault.members[user].status == Active && 1 <= v <= l.vault.members[user].keyVersion
    ensures user in sec.account && v <= |l.keys|
    ensures var listed := ListedVault(l.vault, id, user);
            && listed.Some? && v <= listed.value.keyVersion == l.vault.members[user].keyVersion
            && (forall w :: w in listed.value.previousKeys <==> 1 <= w < listed.value.keyVersion)
            && KeyAt(sec.account[user], listed.value, v) == Some(l.keys[v - 1])
  {
    var member := l.vault.members[user];
    assert MemberState(l.vault, member) && HonestMember(id, sec, l.keys, user, member);
    WalkReaches(id, l.keys, ListedVault(l.vault, id, user).value.previousKeys, member.keyVersion, v);
  }

  /** One link further down. */
  lemma {:induction false} WalkStep(key: Key, id: VaultId, links: map<nat, Cipher>, from: nat, to: nat)
    requires 0 < to <= from
    ensures var above := WalkDown(key, id, links, from, to);
            WalkDown(key, id, links, from, to - 1) ==
            if above.None? || to - 1 !in links then None else UnwrapPreviousVaultKey(above.value, links[to - 1], id, to - 1)
    decreases from
  {
    if from > to && from - 1 in links {
      var older := UnwrapPreviousVaultKey(key, links[from - 1], id, from - 1);
      if older.Some? {
        WalkStep(older.value, id, links, from - 1, to);
      }
    }
  }

  /** A walk that ends early ends there for every lower version. */
  lemma {:induction false} WalkEnds(key: Key, id: VaultId, links: map<nat, Cipher>, from: nat, to: nat, lower: nat)
    requires lower <= to <= from
    requires WalkDown(key, id, links, from, to).None?
    ensures WalkDown(key, id, links, from, lower).None?
    decreases (to)
  {
    if lower < to {
      WalkStep(key, id, links, from, to);
      WalkEnds(key, id, links, from, to - 1, lower);
    }
  }

  /** Whether the walk down from a vault's current key reaches version `v`. */
  predicate Reaches(accountKey: Key, vault: MemberVault, v: nat) {
    v <= vault.keyVersion && KeyAt(accountKey, vault, v).Some?
  }

  function Held(keys: map<KeyId, Buffer>): set<Buffer> {
    set k | k in keys :: keys[k]
  }

  /** What the buffers hold. */
  ghost function Contents(keys: map<KeyId, Buffer>): map<KeyId, Key>
    reads Held(keys)
  {
    map k | k in keys :: keys[k][..]
  }

  /** A vault's keys from its current version down to `low`. */
  ghost predicate HoldsChain(keys: map<KeyId, Key>, accountKey: Key, vault: MemberVault, low: nat) {
    forall v :: low <= v <= vault.keyVersion ==>
      KeyId(vault.vaultId, v) in keys && KeyAt(accountKey, vault, v) == Some(keys[KeyId(vault.vaultId, v)])
  }

  /** The keys a chain adds: those of the versions from the current one down to `low`. */
  ghost predicate AddsChain(before: map<KeyId, Key>, keys: map<KeyId, Key>, vault: MemberVault, low: nat) {
    && (forall k :: k in keys <==> k in before || (k.vaultId == vault.vaultId && low <= k.keyVersion <= vault.keyVersion))
    && (forall k :: k in before ==> k in keys && keys[k] == before[k])
  }

  /** Open one more key next to the ones held. */
  method OpenInto(d: Decryptor, before: map<KeyId, Buffer>, id: KeyId, plain: Option<Key>) returns (opens: bool, keys: map<KeyId, Buffer>)
    requires id !in before
    modifies d
    ensures old(d.made) <= d.made && fresh(d.made - old(d.made))
    ensures opens <==> plain.Some?
    ensures Held(keys) == Held(before) + (d.made - old(d.made))
    ensures Contents(keys) == if opens then old(Contents(before))[id := plain.value] else old(Contents(before))
  {
    var buffer := d.Plain(plain);
    keys := before;
    opens := buffer != null;
    if buffer != null {
      HeldMore(before, id, buffer);
      keys := before[id := buffer];
    }
  }

  /** Open a vault's earlier keys into `keys`, from its current one down, as far as the links open. */
  method LoadPreviousKeys(d: Decryptor, accountKey: Key, vault: MemberVault, ghost before: map<KeyId, Key>, current: map<KeyId, Buffer>)
      returns (keys: map<KeyId, Buffer>, ghost low: nat)
    requires vault.keyVersion >= 1
    requires forall k :: k in before ==> k.vaultId != vault.vaultId
    requires HoldsChain(Contents(current), accountKey, vault, vault.keyVersion) && AddsChain(before, Contents(current), vault, vault.keyVersion)
    modifies d
    ensures old(d.made) <= d.made && fresh(d.made - old(d.made))
    ensures Held(keys) == Held(current) + (d.made - old(d.made))
    ensures 1 <= low <= vault.keyVersion && (low == 1 || !Reaches(accountKey, vault, low - 1))
    ensures HoldsChain(Contents(keys), accountKey, vault, low) && AddsChain(before, Contents(keys), vault, low)
  {
    hide KeyAt, HoldsChain, AddsChain, Reaches, Contents, Held, UnwrapPreviousVaultKey;
    keys := current;
    var v := vault.keyVersion;
    low := v;
    while v > 1
      invariant 1 <= v == low <= vault.keyVersion
      invariant old(d.made) <= d.made && fresh(d.made - old(d.made))
      invariant Held(keys) == Held(current) + (d.made - old(d.made))
      invariant HoldsChain(Contents(keys), accountKey, vault, v) && AddsChain(before, Contents(keys), vault, v)
    {
      ChainStep(before, Contents(keys), accountKey, vault, v);
      ContentsAt(keys, KeyId(vault.vaultId, v));
      ContentsAt(keys, KeyId(vault.vaultId, v - 1));
      var newer := keys[KeyId(vault.vaultId, v)];
      if v - 1 !in vault.previousKeys {
        return;
      }
      var opens;
      opens, keys := OpenInto(d, keys, KeyId(vault.vaultId, v - 1), UnwrapPreviousVaultKey(newer[..], vault.previousKeys[v - 1], vault.vaultId, v - 1));
      if !opens {
        return;
      }
      v := v - 1;
      low := v;
    }
  }

  /** A vault's current key and its earlier ones, next to the keys loaded before. */
  method LoadChain(d: Decryptor, accountKey: Key, vault: MemberVault, current: Buffer, before: map<KeyId, Buffer>)
      returns (keys: map<KeyId, Buffer>, ghost low: nat)
    requires vault.keyVersion >= 1
    requires KeyAt(accountKey, vault, vault.keyVersion) == Some(current[..])
    requires forall k :: k in before ==> k.vaultId != vault.vaultId
    modifies d
    ensures old(d.made) <= d.made && fresh(d.made - old(d.made))
    ensures Held(keys) == Held(before) + {current} + (d.made - old(d.made))
    ensures 1 <= low <= vault.keyVersion && (low == 1 || !Reaches(accountKey, vault, low - 1))
    ensures HoldsChain(Contents(keys), accountKey, vault, low)
    ensures AddsChain(old(Contents(before)), Contents(keys), vault, low)
  {
    hide KeyAt, Reaches;
    var id := KeyId(vault.vaultId, vault.keyVersion);
    HeldMore(before, id, current);
    var first := before[id := current];
    assert Contents(first) == Contents(before)[id := current[..]];
    keys, low := LoadPreviousKeys(d, accountKey, vault, Contents(before), first);
  }

  lemma {:induction false} ContentsAt(keys: map<KeyId, Buffer>, id: KeyId)
    ensures id in Contents(keys) <==> id in keys
    ensures id in keys ==> Contents(keys)[id] == keys[id][..]
  {
  }

  /** The next link down either ends the chain or adds its key. */
  lemma {:induction false} ChainStep(before: map<KeyId, Key>, keys: map<KeyId, Key>, accountKey: Key, vault: MemberVault, v: nat)
    requires 1 < v <= vault.keyVersion
    requires HoldsChain(keys, accountKey, vault, v) && AddsChain(before, keys, vault, v)
    requires forall k :: k in before ==> k.vaultId != vault.vaultId
    ensures KeyId(vault.vaultId, v) in keys && KeyId(vault.vaultId, v - 1) !in keys
    ensures v - 1 !in vault.previousKeys ==> !Reaches(accountKey, vault, v - 1)
    ensures v - 1 in vault.previousKeys ==>
              var older := UnwrapPreviousVaultKey(keys[KeyId(vault.vaultId, v)], vault.previousKeys[v - 1], vault.vaultId, v - 1);
              && (older.None? ==> !Reaches(accountKey, vault, v - 1))
              && (older.Some? ==> var more := keys[KeyId(vault.vaultId, v - 1) := older.value];
                    HoldsChain(more, accountKey, vault, v - 1) && AddsChain(before, more, vault, v - 1))
  {
    hide KeyAt;
    KeyStep(accountKey, vault, v);
  }

  lemma {:induction false} HeldMore(keys: map<KeyId, Buffer>, k: KeyId, b: Buffer)
    requires k !in keys
    ensures Held(keys[k := b]) == Held(keys) + {b}
  {
    var more := keys[k := b];
    forall x | x in Held(keys)
      ensures x in Held(more)
    {
      var i :| i in keys && keys[i] == x;
      assert i in more && more[i] == x;
    }
    assert k in more && more[k] == b;
  }

  lemma {:induction false} KeyStep(accountKey: Key, vault: MemberVault, v: nat)
    requires 0 < v <= vault.keyVersion
    ensures var above := KeyAt(accountKey, vault, v);
            KeyAt(accountKey, vault, v - 1) ==
            if above.None? || v - 1 !in vault.previousKeys then None
            else UnwrapPreviousVaultKey(above.value, vault.previousKeys[v - 1], vault.vaultId, v - 1)
  {
    var current := UnwrapVaultKey(accountKey, vault.wrap, vault.vaultId, vault.keyVersion);
    if current.Some? {
      WalkStep(current.value, vault.vaultId, vault.previousKeys, vault.keyVersion, v);
    }
  }

  /** A listed vault has a key of this id, reached by its walk. */
  predicate Has(accountKey: Key, vault: MemberVault, k: KeyId) {
    k.vaultId == vault.vaultId && 1 <= k.keyVersion && Reaches(accountKey, vault, k.keyVersion)
  }

  /** Exactly the keys the walks of the first `n` listed vaults reach. */
  ghost predicate Loaded(keys: map<KeyId, Key>, accountKey: Key, vaults: seq<MemberVault>, n: nat)
    requires n <= |vaults|
  {
    && (forall k :: k in keys ==> exists i :: 0 <= i < n && Has(accountKey, vaults[i], k))
    && (forall i, k :: 0 <= i < n && Has(accountKey, vaults[i], k) ==>
          k in keys && KeyAt(accountKey, vaults[i], k.keyVersion) == Some(keys[k]))
  }

  /** The first `n` listed vaults are all different. */
  ghost predicate DistinctVaults(vaults: seq<MemberVault>, n: nat)
    requires n <= |vaults|
  {
    forall i, j :: 0 <= i < j < n ==> vaults[i].vaultId != vaults[j].vaultId
  }

  /** A walk that stopped reaches no lower version. */
  lemma {:induction false} ReachesNothingBelow(accountKey: Key, vault: MemberVault, low: nat, v: nat)
    requires 1 <= low <= vault.keyVersion && (low == 1 || !Reaches(accountKey, vault, low - 1))
    requires 1 <= v < low
    ensures !Reaches(accountKey, vault, v)
  {
    var current := UnwrapVaultKey(accountKey, vault.wrap, vault.vaultId, vault.keyVersion);
    if current.Some? {
      WalkEnds(current.value, vault.vaultId, vault.previousKeys, vault.keyVersion, low - 1, v);
    }
  }

  /** Open one listed vault's keys, all its walk reaches; nothing when its wrap does not open. */
  method LoadVault(d: Decryptor, accountKey: Key, vaults: seq<MemberVault>, n: nat, before: map<KeyId, Buffer>)
      returns (opens: bool, keys: map<KeyId, Buffer>)
    requires n < |vaults| && vaults[n].keyVersion >= 1
    requires DistinctVaults(vaults, n + 1)
    requires Loaded(Contents(before), accountKey, vaults, n)
    modifies d
    ensures old(d.made) <= d.made && fresh(d.made - old(d.made))
    ensures opens <==> Opens(accountKey, vaults[n])
    ensures Held(keys) == Held(before) + (d.made - old(d.made))
    ensures Loaded(Contents(keys), accountKey, vaults, n + 1)
  {
    hide WalkDown, KeyAt, Loaded, Reaches, HoldsChain, AddsChain;
    var vault := vaults[n];
    ghost var contents := Contents(before);
    var key := d.Plain(UnwrapVaultKey(accountKey, vault.wrap, vault.vaultId, vault.keyVersion));
    keys := before;
    opens := key != null;
    if key == null {
      NothingLoaded(contents, accountKey, vaults, n);
      return;
    }
    NotLoadedYet(contents, accountKey, vaults, n);
    CurrentKeyAt(accountKey, vault);
    ghost var low;
    keys, low := LoadChain(d, accountKey, vault, key, before);
    VaultLoaded(contents, Contents(keys), accountKey, vaults, n, low);
  }

  lemma {:induction false} CurrentKeyAt(accountKey: Key, vault: MemberVault)
    ensures KeyAt(accountKey, vault, vault.keyVersion) == UnwrapVaultKey(accountKey, vault.wrap, vault.vaultId, vault.keyVersion)
  {
  }

  lemma {:induction false} NothingLoaded(keys: map<KeyId, Key>, accountKey: Key, vaults: seq<MemberVault>, n: nat)
    requires n < |vaults| && Loaded(keys, accountKey, vaults, n) && !Opens(accountKey, vaults[n])
    ensures Loaded(keys, accountKey, vaults, n + 1)
  {
  }

  /** No key of a vault listed only now is loaded yet. */
  lemma {:induction false} NotLoadedYet(keys: map<KeyId, Key>, accountKey: Key, vaults: seq<MemberVault>, n: nat)
    requires n < |vaults| && DistinctVaults(vaults, n + 1) && Loaded(keys, accountKey, vaults, n)
    ensures forall k :: k in keys ==> k.vaultId != vaults[n].vaultId
  {
  }

  lemma {:induction false} VaultLoaded(before: map<KeyId, Key>, keys: map<KeyId, Key>, accountKey: Key, vaults: seq<MemberVault>, n: nat, low: nat)
    requires n < |vaults| && Loaded(before, accountKey, vaults, n)
    requires 1 <= low <= vaults[n].keyVersion && (low == 1 || !Reaches(accountKey, vaults[n], low - 1))
    requires HoldsChain(keys, accountKey, vaults[n], low) && AddsChain(before, keys, vaults[n], low)
    ensures Loaded(keys, accountKey, vaults, n + 1)
  {
    hide KeyAt;
    var vault := vaults[n];
    forall k | k in keys && k !in before
      ensures Has(accountKey, vault, k)
    {
      assert KeyAt(accountKey, vault, k.keyVersion).Some?;
    }
    forall k | Has(accountKey, vault, k)
      ensures k in keys && KeyAt(accountKey, vault, k.keyVersion) == Some(keys[k])
    {
      if k.keyVersion < low {
        ReachesNothingBelow(accountKey, vault, low, k.keyVersion);
      }
    }
  }

  // ---- The store ----

  datatype Error = SessionLocked | WrongPersonalVaults | DuplicateVault | PersonalVaultClosed | NotNewer | DoesNotOpen | NotLinked | MetadataDoesNotOpen

  function PersonalAt(vaults: seq<MemberVault>): seq<nat> {
    if vaults == [] then [] else
      var n := |vaults| - 1;
      PersonalAt(vaults[..n]) + (if vaults[n].kind == Personal then [n] else [])
  }

  lemma {:induction false} PersonalAtPlaces(vaults: seq<MemberVault>)
    ensures forall p :: p in PersonalAt(vaults) <==> 0 <= p < |vaults| && vaults[p].kind == Personal
  {
    if vaults != [] {
      PersonalAtPlaces(vaults[..|vaults| - 1]);
    }
  }

  /** Which of the first `n` listed vaults open, and at which version; the others are skipped. */
  ghost predicate Sifted(accountKey: Key, vaults: seq<MemberVault>, n: nat, current: map<VaultId, nat>, skipped: seq<VaultId>)
    requires n <= |vaults|
  {
    && (forall id :: id in current ==> exists i :: 0 <= i < n && vaults[i].vaultId == id)
    && (forall id :: id in skipped ==> exists i :: 0 <= i < n && vaults[i].vaultId == id)
    && (forall i :: 0 <= i < n ==>
          if Opens(accountKey, vaults[i]) then vaults[i].vaultId in current && current[vaults[i].vaultId] == vaults[i].keyVersion && vaults[i].vaultId !in skipped
          else vaults[i].vaultId in skipped && vaults[i].vaultId !in current)
  }

  /** What a list must be for its keys to be loaded: one personal vault, which opens, and no vault twice. */
  ghost predicate Loadable(accountKey: Key, vaults: seq<MemberVault>) {
    && |PersonalAt(vaults)| == 1
    && DistinctVaults(vaults, |vaults|)
    && forall i :: 0 <= i < |vaults| && vaults[i].kind == Personal ==> Opens(accountKey, vaults[i])
  }

  datatype Opened = Opened(keys: map<KeyId, Buffer>, current: map<VaultId, nat>, skipped: seq<VaultId>)

  /** Open every listed vault, or stop at the first that may not be left out; `keys` then still holds what was opened. */
  method OpenAll(d: Decryptor, accountKey: Key, vaults: seq<MemberVault>) returns (error: Option<Error>, got: Opened)
    requires forall i :: 0 <= i < |vaults| ==> vaults[i].keyVersion >= 1
    modifies d
    ensures old(d.made) <= d.made && fresh(d.made - old(d.made))
    ensures Held(got.keys) == d.made - old(d.made)
    ensures |PersonalAt(vaults)| == 1 ==> (error.None? <==> Loadable(accountKey, vaults))
    ensures error.Some? ==> error.value == DuplicateVault || error.value == PersonalVaultClosed
    ensures error.None? ==> Loaded(Contents(got.keys), accountKey, vaults, |vaults|) && Sifted(accountKey, vaults, |vaults|, got.current, got.skipped)
  {
    hide KeyAt, Has, Loaded, Held, Contents;
    var keys: map<KeyId, Buffer> := map[];
    var current: map<VaultId, nat> := map[];
    var skipped: seq<VaultId> := [];
    EmptyLoaded(accountKey, vaults);
    for n := 0 to |vaults|
      invariant old(d.made) <= d.made && fresh(d.made - old(d.made))
      invariant Held(keys) == d.made - old(d.made)
      invariant DistinctVaults(vaults, n)
      invariant Loaded(Contents(keys), accountKey, vaults, n)
      invariant Sifted(accountKey, vaults, n, current, skipped)
      invariant forall i :: 0 <= i < n && vaults[i].kind == Personal ==> Opens(accountKey, vaults[i])
    {
      var id := vaults[n].vaultId;
      if id in current || id in skipped {
        assert !DistinctVaults(vaults, |vaults|);
        return Some(DuplicateVault), Opened(keys, current, skipped);
      }
      NewVaultDistinct(accountKey, vaults, n, current, skipped);
      var opens;
      opens, keys := LoadVault(d, accountKey, vaults, n, keys);
      if !opens && vaults[n].kind == Personal {
        return Some(PersonalVaultClosed), Opened(keys, current, skipped);
      }
      if opens {
        current := current[id := vaults[n].keyVersion];
      } else {
        skipped := skipped + [id];
      }
    }
    return None, Opened(keys, current, skipped);
  }

  lemma {:induction false} EmptyLoaded(accountKey: Key, vaults: seq<MemberVault>)
    ensures Held(map[]) == {} && Loaded(Contents(map[]), accountKey, vaults, 0)
  {
  }

  lemma {:induction false} NewVaultDistinct(accountKey: Key, vaults: seq<MemberVault>, n: nat, current: map<VaultId, nat>, skipped: seq<VaultId>)
    requires n < |vaults| && DistinctVaults(vaults, n) && Sifted(accountKey, vaults, n, current, skipped)
    requires vaults[n].vaultId !in current && vaults[n].vaultId !in skipped
    ensures DistinctVaults(vaults, n + 1)
  {
  }

  /**
   * Walk an update's links down from its new key, zeroing every key passed on the way:
   * only the last one reached is left.
   */
  method Walk(d: Decryptor, newKey: Buffer, update: KeyUpdate, heldVersion: nat) returns (reached: bool, key: Buffer)
    requires heldVersion < update.keyVersion
    modifies d
    ensures old(d.made) <= d.made && fresh(d.made - old(d.made))
    ensures key == newKey || key in d.made - old(d.made)
    ensures forall b :: b in d.made - old(d.made) && b != key ==> Zeroed(b)
    ensures newKey[..] == old(newKey[..])
    ensures var end := WalkDown(newKey[..], update.vaultId, update.links, update.keyVersion, heldVersion);
            if reached then end == Some(key[..]) else end == None
  {
    hide UnwrapPreviousVaultKey;
    key := newKey;
    var version := update.keyVersion;
    while version > heldVersion
      invariant heldVersion <= version <= update.keyVersion
      invariant old(d.made) <= d.made && fresh(d.made - old(d.made))
      invariant key == newKey || key in d.made - old(d.made)
      invariant forall b :: b in d.made - old(d.made) && b != key ==> Zeroed(b)
      invariant newKey[..] == old(newKey[..])
      invariant WalkDown(newKey[..], update.vaultId, update.links, update.keyVersion, version) == Some(key[..])
    {
      WalkStep(newKey[..], update.vaultId, update.links, update.keyVersion, version);
      var plain := if version - 1 in update.links then UnwrapPreviousVaultKey(key[..], update.links[version - 1], update.vaultId, version - 1) else None;
      var older := d.Plain(plain);
      if older == null {
        WalkEnds(newKey[..], update.vaultId, update.links, update.keyVersion, version - 1, heldVersion);
        return false, key;
      }
      if key != newKey {
        Wipe(key);
      }
      key := older;
      version := version - 1;
    }
    reached := true;
  }

  class Store {
    var accountKey: array?<bv8>
    var vaultKeys: map<KeyId, Buffer>
    var currentKeyVersions: map<VaultId, nat>
    var personalVaultId: Option<VaultId>
    var userPrivateKey: array?<bv8>
    var userKeyPairVersion: nat

    constructor ()
      ensures accountKey == null && vaultKeys == map[] && currentKeyVersions == map[] && personalVaultId == None && userPrivateKey == null
    {
      accountKey, vaultKeys, currentKeyVersions, personalVaultId, userPrivateKey, userKeyPairVersion := null, map[], map[], None, null, 0;
    }

    method WipeVaultKeys()
      modifies this`vaultKeys, this`currentKeyVersions, this`personalVaultId, Held(vaultKeys)
      ensures forall b :: b in old(Held(vaultKeys)) ==> Zeroed(b)
      ensures vaultKeys == map[] && currentKeyVersions == map[] && personalVaultId == None
    {
      WipeAll(Held(vaultKeys));
      vaultKeys, currentKeyVersions, personalVaultId := map[], map[], None;
    }

    /** Hold what was opened, and wipe what was held. */
    method ReplaceKeys(got: Opened, vaultId: VaultId)
      requires Held(got.keys) !! Held(vaultKeys)
      modifies this`vaultKeys, this`currentKeyVersions, this`personalVaultId, Held(vaultKeys)
      ensures forall b :: b in old(Held(vaultKeys)) ==> Zeroed(b)
      ensures vaultKeys == got.keys && currentKeyVersions == got.current && personalVaultId == Some(vaultId)
      ensures Contents(vaultKeys) == old(Contents(got.keys))
    {
      WipeVaultKeys();
      vaultKeys, currentKeyVersions, personalVaultId := got.keys, got.current, Some(vaultId);
      assert forall k :: k in got.keys ==> got.keys[k] in Held(got.keys);
    }

    /**
     * Replace the held vault keys by those of a list, all or nothing: either the list is
     * refused, the keys held before stay as they are and everything opened meanwhile is
     * zeroed; or the old buffers are zeroed and what is held is exactly what was opened.
     */
    method LoadVaultKeys(d: Decryptor, vaults: seq<MemberVault>) returns (r: Result<seq<VaultId>, Error>)
      requires forall i :: 0 <= i < |vaults| ==> vaults[i].keyVersion >= 1
      modifies this`vaultKeys, this`currentKeyVersions, this`personalVaultId, Held(vaultKeys), d
      ensures old(d.made) <= d.made && fresh(d.made - old(d.made))
      ensures r.Ok? <==> old(accountKey) != null && Loadable(old(accountKey[..]), vaults)
      ensures r == Err(SessionLocked) <==> old(accountKey) == null
      ensures old(accountKey) != null ==> (r == Err(WrongPersonalVaults) <==> |PersonalAt(vaults)| != 1)
      ensures r.Err? ==>
                && vaultKeys == old(vaultKeys) && currentKeyVersions == old(currentKeyVersions) && personalVaultId == old(personalVaultId)
                && Contents(vaultKeys) == old(Contents(vaultKeys))
                && forall b :: b in d.made - old(d.made) ==> Zeroed(b)
      ensures r.Ok? ==>
                && (forall b :: b in old(Held(vaultKeys)) ==> Zeroed(b))
                && Held(vaultKeys) == d.made - old(d.made)
                && Loaded(Contents(vaultKeys), old(accountKey[..]), vaults, |vaults|)
                && Sifted(old(accountKey[..]), vaults, |vaults|, currentKeyVersions, r.value)
                && exists p :: 0 <= p < |vaults| && vaults[p].kind == Personal && personalVaultId == Some(vaults[p].vaultId)
    {
      hide Loaded, Sifted, PersonalAt, DistinctVaults, Opens, Zeroed;
      if accountKey == null {
        return Err(SessionLocked);
      }
      ghost var account := accountKey[..];
      var personal := PersonalAt(vaults);
      PersonalAtPlaces(vaults);
      if |personal| != 1 {
        return Err(WrongPersonalVaults);
      }
      var error, got := OpenAll(d, accountKey[..], vaults);
      if error.Some? {
        WipeAll(Held(got.keys));
        return Err(error.value);
      }
      assert personal[0] in personal;
      ReplaceKeys(got, vaults[personal[0]].vaultId);
      return Ok(got.skipped);
    }

    predicate HoldsCurrent(id: VaultId)
      reads this
    {
      id in currentKeyVersions && KeyId(id, currentKeyVersions[id]) in vaultKeys
    }

    /** What opening an update comes to, with the keys held now. */
    ghost function UpdateWrap(update: KeyUpdate): Option<Cipher>
      reads this, accountKey, userPrivateKey, Held(vaultKeys)
    {
      if accountKey == null || userPrivateKey == null || !HoldsCurrent(update.vaultId) then None
      else
        var heldVersion := currentKeyVersions[update.vaultId];
        KeyChain.OpenKeyUpdate(accountKey[..], userPrivateKey[..], userKeyPairVersion, heldVersion, vaultKeys[KeyId(update.vaultId, heldVersion)][..], update)
    }

    /**
     * The user's own wrap of a newer key of a vault: only if it opens, and its links lead
     * from it down to the key held now. Either way every buffer opened is zeroed.
     */
    method OpenKeyUpdate(d: Decryptor, update: KeyUpdate) returns (r: Result<Cipher, Error>)
      modifies d
      ensures old(d.made) <= d.made && fresh(d.made - old(d.made))
      ensures forall b :: b in d.made - old(d.made) ==> Zeroed(b)
      ensures if r.Ok? then UpdateWrap(update) == Some(r.value) else UpdateWrap(update) == None
    {
      hide WalkDown;
      if accountKey == null || userPrivateKey == null || !HoldsCurrent(update.vaultId) {
        return Err(SessionLocked);
      }
      var heldVersion := currentKeyVersions[update.vaultId];
      if update.keyVersion <= heldVersion {
        return Err(NotNewer);
      }
      var held := vaultKeys[KeyId(update.vaultId, heldVersion)];
      if update.recipientKeyVersion != userKeyPairVersion {
        return Err(DoesNotOpen);
      }
      var newKey := d.Plain(OpenSealedVaultKey(userPrivateKey[..], update.sender, update.box, update.vaultId, update.keyVersion));
      if newKey == null {
        return Err(DoesNotOpen);
      }
      var reached, key := Walk(d, newKey, update, heldVersion);
      var equal := EqualBytes(key, held);
      r := if reached && equal then Ok(WrapVaultKey(accountKey[..], newKey[..], update.vaultId, update.keyVersion)) else Err(NotLinked);
      if key != newKey {
        Wipe(key);
      }
      Wipe(newKey);
    }

    /** The user's own wrap of a vault key sealed to them by an inviter; `metadata` tells whether the vault's metadata opens with it. */
    method OpenInvitation(d: Decryptor, id: VaultId, keyVersion: nat, box: Cipher, recipientKeyVersion: nat, sender: PublicKey, metadata: Key -> bool)
        returns (r: Result<Cipher, Error>)
      modifies d
      ensures old(d.made) <= d.made && fresh(d.made - old(d.made))
      ensures forall b :: b in d.made - old(d.made) ==> Zeroed(b)
      ensures accountKey == null || userPrivateKey == null ==> r == Err(SessionLocked)
      ensures accountKey != null && userPrivateKey != null ==>
                var plain := OpenSealedVaultKey(userPrivateKey[..], sender, box, id, keyVersion);
                if recipientKeyVersion != userKeyPairVersion || plain.None? then r == Err(DoesNotOpen)
                else if !metadata(plain.value) then r == Err(MetadataDoesNotOpen)
                else r == Ok(WrapVaultKey(accountKey[..], plain.value, id, keyVersion))
    {
      if accountKey == null || userPrivateKey == null {
        return Err(SessionLocked);
      }
      if recipientKeyVersion != userKeyPairVersion {
        return Err(DoesNotOpen);
      }
      var vaultKey := d.Plain(OpenSealedVaultKey(userPrivateKey[..], sender, box, id, keyVersion));
      if vaultKey == null {
        return Err(DoesNotOpen);
      }
      r := if metadata(vaultKey[..]) then Ok(WrapVaultKey(accountKey[..], vaultKey[..], id, keyVersion)) else Err(MetadataDoesNotOpen);
      Wipe(vaultKey);
    }
  }
}
