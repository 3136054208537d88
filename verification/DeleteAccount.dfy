/**
 * Account deletion: which vaults go with the account, which it leaves behind, and when
 * it is refused.
 */
module DeleteAccount {
  import opened Prelude
  import opened Crypto
  import opened Tables
  import opened Vaults
  import opened PushLog
  import opened PushEffect
  import opened VaultRuns

  // ---- The rules ----

  predicate ActiveIn(vault: Vault, user: UserId) {
    user in vault.members && vault.members[user].status == Active
  }

  /** A live shared vault the user is active in or recorded as owner of. */
  predicate Concerned(vault: Vault, user: UserId) {
    vault.kind == Shared && !vault.deleted && (vault.ownerId == user || ActiveIn(vault, user))
  }

  function OthersActive(vault: Vault, user: UserId): set<UserId> {
    set u | u in vault.members && u != user && vault.members[u].status == Active
  }

  function OtherOwners(vault: Vault, user: UserId): set<UserId> {
    set u | u in OthersActive(vault, user) && vault.members[u].role == Owner
  }

  /** Others are active in the vault, none of them an owner. */
  predicate SoleOwned(vault: Vault, user: UserId) {
    Concerned(vault, user) && OthersActive(vault, user) != {} && OtherOwners(vault, user) == {}
  }

  predicate Refused(vaults: map<VaultId, Vault>, user: UserId) {
    exists id :: id in vaults && SoleOwned(vaults[id], user)
  }

  /** Whether a vault goes with the account: with nobody else to own it, or by the cascade from its owner. */
  predicate Destroyed(vault: Vault, user: UserId) {
    if Concerned(vault, user) then OtherOwners(vault, user) == {} else vault.ownerId == user
  }

  /** An invite the user sent that was not accepted. */
  predicate SentPending(member: Member, user: UserId) {
    member.status == Pending && member.seal.Some? && member.seal.value.sealedBy == Some(user)
  }

  /** A member row once its sender's account is gone. */
  function Orphaned(member: Member, user: UserId): Member {
    if member.seal.Some? && member.seal.value.sealedBy == Some(user)
    then member.(seal := Some(member.seal.value.(sealedBy := None))) else member
  }

  /** A vault that stays, without the user. Which other owner it passes to is the database's choice; here the least id. */
  function LeftBehind(vault: Vault, user: UserId): Vault
    requires !Destroyed(vault, user)
  {
    vault.(
      ownerId := if vault.ownerId == user then Least(OtherOwners(vault, user)) else vault.ownerId,
      rotationNeeded := vault.rotationNeeded || (Concerned(vault, user) && ActiveIn(vault, user)),
      members := map u | u in vault.members && u != user && !SentPending(vault.members[u], user) :: Orphaned(vault.members[u], user))
  }

  function VaultsAfter(vaults: map<VaultId, Vault>, user: UserId): map<VaultId, Vault> {
    map id | id in vaults && !Destroyed(vaults[id], user) :: LeftBehind(vaults[id], user)
  }

  function RowsIn(rows: seq<Row>, vaults: set<VaultId>): seq<Row> {
    if rows == [] then [] else
      var last := rows[|rows| - 1];
      RowsIn(rows[..|rows| - 1], vaults) + (if last.v.vaultId in vaults then [last] else [])
  }

  /** A live shared vault the user is an active member of. */
  predicate LivesSharedWith(vault: Vault, user: UserId) {
    vault.kind == Shared && !vault.deleted && user in vault.members && vault.members[user].status == Active
  }

  /** Exactly the rows of these vaults are left, in the order they were in. */
  ghost predicate KeptInOrder(before: seq<Row>, after: seq<Row>, vaults: set<VaultId>) {
    exists places :: Keeps(before, after, vaults, places)
  }

  ghost predicate Keeps(before: seq<Row>, after: seq<Row>, vaults: set<VaultId>, places: seq<nat>) {
    && |places| == |after|
    && (forall k :: 0 <= k < |places| ==> places[k] < |before| && after[k] == before[places[k]] && after[k].v.vaultId in vaults)
    && (forall k, m :: 0 <= k < m < |places| ==> places[k] < places[m])
    && (forall i :: 0 <= i < |before| && before[i].v.vaultId in vaults ==> i in places)
  }

  lemma {:induction false} KeepsOrder(rows: seq<Row>, vaults: set<VaultId>)
    ensures KeptInOrder(rows, RowsIn(rows, vaults), vaults)
  {
    var places := PlacesIn(rows, vaults);
  }

  lemma {:induction false} PlacesIn(rows: seq<Row>, vaults: set<VaultId>) returns (places: seq<nat>)
    ensures Keeps(rows, RowsIn(rows, vaults), vaults, places)
  {
    if rows == [] {
      places := [];
    } else {
      var n := |rows| - 1;
      var before := PlacesIn(rows[..n], vaults);
      places := before + (if rows[n].v.vaultId in vaults then [n] else []);
      RowsInLast(rows, vaults);
      hide RowsIn;
      forall i | 0 <= i < |rows| && rows[i].v.vaultId in vaults
        ensures i in places
      {
        if i < n {
          assert rows[..n][i] == rows[i];
          assert i in before;
        } else {
          assert places[|before|] == n;
        }
      }
    }
  }

  lemma {:induction false} RowsInLast(rows: seq<Row>, vaults: set<VaultId>)
    requires rows != []
    ensures var n := |rows| - 1;
            RowsIn(rows, vaults) == RowsIn(rows[..n], vaults) + (if rows[n].v.vaultId in vaults then [rows[n]] else [])
  {
  }

  // ---- The transaction ----

  datatype Refusal = NoAccount | SoleOwner(vaultIds: seq<VaultId>)

  /** Hand over or leave each concerned vault; the ones with nobody else are collected for deletion. */
  method LeaveShared(db: Database, user: UserId, ids: seq<VaultId>) returns (deleteVaultIds: set<VaultId>, left: set<VaultId>)
    requires forall i :: 0 <= i < |ids| ==> ids[i] in db.vaults && Concerned(db.vaults[ids[i]], user)
    requires forall i, j :: 0 <= i < j < |ids| ==> ids[i] != ids[j]
    modifies db`vaults
    ensures db.vaults.Keys == old(db.vaults).Keys
    ensures forall id :: id in deleteVaultIds <==> id in ids && OtherOwners(old(db.vaults)[id], user) == {}
    ensures forall id :: id in left <==> id in ids && OtherOwners(old(db.vaults)[id], user) != {} && ActiveIn(old(db.vaults)[id], user)
    ensures forall id :: id in db.vaults ==> db.vaults[id] == if id in ids then HandedOver(old(db.vaults)[id], user) else old(db.vaults)[id]
  {
    hide OthersActive, Least;
    deleteVaultIds, left := {}, {};
    ghost var before := db.vaults;
    for n := 0 to |ids|
      invariant db.vaults.Keys == before.Keys
      invariant forall id :: id in deleteVaultIds <==> id in ids[..n] && OtherOwners(before[id], user) == {}
      invariant forall id :: id in left <==> id in ids[..n] && OtherOwners(before[id], user) != {} && ActiveIn(before[id], user)
      invariant forall id :: id in db.vaults ==> db.vaults[id] == if id in ids[..n] then HandedOver(before[id], user) else before[id]
    {
      var id := ids[n];
      assert ids[..n + 1] == ids[..n] + [id];
      var vault := db.vaults[id];
      assert vault == before[id];
      var others := OtherOwners(vault, user);
      if others == {} {
        deleteVaultIds := deleteVaultIds + {id};
      } else {
        if vault.ownerId == user {
          vault := vault.(ownerId := Least(others));
        }
        if ActiveIn(vault, user) {
          vault := vault.(rotationNeeded := true);
          left := left + {id};
        }
        db.vaults := db.vaults[id := vault];
      }
    }
    assert ids[..|ids|] == ids;
  }

  function HandedOver(vault: Vault, user: UserId): Vault {
    if OtherOwners(vault, user) == {} then vault
    else vault.(ownerId := if vault.ownerId == user then Least(OtherOwners(vault, user)) else vault.ownerId,
                rotationNeeded := vault.rotationNeeded || ActiveIn(vault, user))
  }

  function WithoutSent(members: map<UserId, Member>, user: UserId): map<UserId, Member> {
    map u | u in members && !SentPending(members[u], user) :: members[u]
  }

  /** The tables after the user's row is deleted: their memberships and the vaults they own cascade. */
  function Cascaded(vaults: map<VaultId, Vault>, user: UserId): map<VaultId, Vault> {
    map id | id in vaults && vaults[id].ownerId != user :: vaults[id].(members := WithoutUser(vaults[id].members, user))
  }

  function WithoutUser(members: map<UserId, Member>, user: UserId): map<UserId, Member> {
    map u | u in members && u != user :: Orphaned(members[u], user)
  }

  method Delete(db: Database, users: set<UserId>, user: UserId) returns (refusal: Option<Refusal>, left: set<VaultId>)
    modifies db
    ensures refusal.Some? ==> db.State() == old(db.State()) && left == {}
    ensures refusal == Some(NoAccount) <==> user !in users
    ensures user in users ==> (refusal.Some? <==> Refused(old(db.vaults), user))
    ensures refusal.None? ==>
              && db.vaults == VaultsAfter(old(db.vaults), user)
              && db.records == RowsIn(old(db.records), db.vaults.Keys)
              && KeptInOrder(old(db.records), db.records, db.vaults.Keys)
              && (forall id :: id in left <==> id in db.vaults && id in old(db.vaults) && LivesSharedWith(old(db.vaults)[id], user))
  {
    left := {};
    if user !in users {
      return Some(NoAccount), {};
    }
    hide Concerned, OthersActive, OtherOwners, Destroyed, SentPending, RowsIn, HandedOver, LeftBehind, ActiveIn, LivesSharedWith, KeptInOrder;
    ghost var before := db.vaults;
    var shared := set id | id in db.vaults && Concerned(db.vaults[id], user);
    var soleOwned := set id | id in shared && OthersActive(db.vaults[id], user) != {} && OtherOwners(db.vaults[id], user) == {};
    assert soleOwned == set id | id in before && SoleOwned(before[id], user);
    if soleOwned != {} {
      ghost var id := Least(soleOwned);
      return Some(SoleOwner(Sorted(soleOwned))), {};
    }
    assert forall id :: id in before && SoleOwned(before[id], user) ==> id in soleOwned;
    var ids := InOrder(shared);
    var deleteVaultIds;
    deleteVaultIds, left := LeaveShared(db, user, ids);
    DropRows(db, user, deleteVaultIds, before);
    refusal := None;
    KeepsOrder(old(db.records), db.vaults.Keys);
    LeftMeans(before, user, left);
  }

  /** The vaults a deletion reports as left: the live shared ones the user was active in that are still there. */
  lemma {:induction false} LeftMeans(before: map<VaultId, Vault>, user: UserId, left: set<VaultId>)
    requires forall id :: id in left <==> id in before && Concerned(before[id], user) && OtherOwners(before[id], user) != {} && ActiveIn(before[id], user)
    ensures forall id :: id in left <==> id in VaultsAfter(before, user) && id in before && LivesSharedWith(before[id], user)
  {
    hide LeftBehind, OtherOwners;
  }

  /** The deletes: invites the user sent, the collected vaults, the user's row with its cascades. */
  method DropRows(db: Database, user: UserId, deleteVaultIds: set<VaultId>, ghost before: map<VaultId, Vault>)
    requires db.vaults.Keys == before.Keys
    requires forall id :: id in db.vaults ==> db.vaults[id] == if Concerned(before[id], user) then HandedOver(before[id], user) else before[id]
    requires forall id :: id in deleteVaultIds <==> id in before && Concerned(before[id], user) && OtherOwners(before[id], user) == {}
    modifies db
    ensures db.vaults == VaultsAfter(before, user)
    ensures db.records == RowsIn(old(db.records), db.vaults.Keys)
  {
    hide Concerned, OthersActive, OtherOwners, Destroyed, SentPending, RowsIn, HandedOver, LeftBehind, ActiveIn, WithoutSent, WithoutUser;
    db.vaults := map id | id in db.vaults :: db.vaults[id].(members := WithoutSent(db.vaults[id].members, user));
    db.vaults := map id | id in db.vaults && id !in deleteVaultIds :: db.vaults[id];
    assert Trimmed(before, db.vaults, deleteVaultIds, user);
    ghost var trimmed := db.vaults;
    db.vaults := Cascaded(db.vaults, user);
    db.records := RowsIn(db.records, db.vaults.Keys);
    CascadeIsAfter(before, trimmed, deleteVaultIds, user);
  }

  /** The tables before the user's row goes. */
  ghost predicate Trimmed(before: map<VaultId, Vault>, trimmed: map<VaultId, Vault>, gone: set<VaultId>, user: UserId) {
    && trimmed.Keys == before.Keys - gone
    && forall id :: id in trimmed ==>
         var handed := if Concerned(before[id], user) then HandedOver(before[id], user) else before[id];
         trimmed[id] == handed.(members := WithoutSent(handed.members, user))
  }

  lemma {:induction false} CascadeIsAfter(before: map<VaultId, Vault>, trimmed: map<VaultId, Vault>, gone: set<VaultId>, user: UserId)
    requires Trimmed(before, trimmed, gone, user)
    requires forall id :: id in gone <==> id in before && Concerned(before[id], user) && OtherOwners(before[id], user) == {}
    ensures Cascaded(trimmed, user) == VaultsAfter(before, user)
  {
    hide Concerned, OtherOwners, Destroyed, HandedOver, LeftBehind, WithoutSent, WithoutUser;
    var after := Cascaded(trimmed, user);
    forall id | id in before
      ensures id in after <==> !Destroyed(before[id], user)
      ensures id in after ==> after[id] == LeftBehind(before[id], user)
    {
      VaultLeft(before[id], user);
    }
  }

  method InOrder(s: set<VaultId>) returns (ids: seq<VaultId>)
    ensures forall id :: id in ids <==> id in s
    ensures forall i :: 0 <= i < |ids| ==> ids[i] in s
    ensures forall i, j :: 0 <= i < j < |ids| ==> ids[i] != ids[j]
  {
    ids := Sorted(s);
  }

  /** What the steps make of one vault is what the rules say. */
  lemma {:induction false} VaultLeft(vault: Vault, user: UserId)
    ensures var handed := if Concerned(vault, user) then HandedOver(vault, user) else vault;
            var trimmed := handed.(members := WithoutSent(handed.members, user));
            var gone := Concerned(vault, user) && OtherOwners(vault, user) == {};
            && (Destroyed(vault, user) <==> gone || trimmed.ownerId == user)
            && (!Destroyed(vault, user) ==> LeftBehind(vault, user) == trimmed.(members := WithoutUser(trimmed.members, user)))
  {
  }

  // ---- What a deletion means ----

  /** Another active member, or another active owner, beside the user. */
  predicate OtherActive(vault: Vault, user: UserId, u: UserId) {
    u in vault.members && u != user && vault.members[u].status == Active
  }

  predicate OtherOwner(vault: Vault, user: UserId, u: UserId) {
    OtherActive(vault, user, u) && vault.members[u].role == Owner
  }

  /** A live shared vault the user owns by record or is active in. */
  predicate Theirs(vault: Vault, user: UserId) {
    vault.kind == Shared && !vault.deleted && (vault.ownerId == user || (user in vault.members && vault.members[user].status == Active))
  }

  /** A member row once the user is gone: nothing but the name of a sender is lost. */
  predicate SameButSender(before: Member, after: Member, user: UserId) {
    && after.role == before.role && after.status == before.status && after.keyVersion == before.keyVersion && after.wrap == before.wrap
    && (before.seal.None? ==> after.seal.None?)
    && (before.seal.Some? ==> after.seal.Some? && after.seal.value.box == before.seal.value.box && after.seal.value.keyVersion == before.seal.value.keyVersion
                              && after.seal.value.sealedTo == before.seal.value.sealedTo && after.seal.value.sealedByKeyVersion == before.seal.value.sealedByKeyVersion
                              && after.seal.value.sealedBy == (if before.seal.value.sealedBy == Some(user) then None else before.seal.value.sealedBy))
  }

  /** A pending invite the user sent. */
  predicate TheirInvite(member: Member, user: UserId) {
    member.status == Pending && member.seal.Some? && member.seal.value.sealedBy == Some(user)
  }

  /** What becomes of a vault that stays: its keys, records and other members as they were. */
  ghost predicate StaysWithout(before: Vault, after: Vault, user: UserId) {
    && after.kind == before.kind && after.deleted == before.deleted && after.keyVersion == before.keyVersion
    && after.lastSeq == before.lastSeq && after.usedBytes == before.usedBytes && after.links == before.links
    && (if before.ownerId != user then after.ownerId == before.ownerId else OtherOwner(before, user, after.ownerId))
    && (after.rotationNeeded <==> before.rotationNeeded || LivesSharedWith(before, user))
    && (forall u :: u in after.members <==> u in before.members && u != user && !TheirInvite(before.members[u], user))
    && (forall u :: u in after.members ==> SameButSender(before.members[u], after.members[u], user))
  }

  /**
   * A vault of the user stays exactly when another active member owns it, any other when
   * it is not recorded as theirs; and this is what becomes of it.
   */
  lemma {:induction false} DeletionMeans(vaults: map<VaultId, Vault>, user: UserId, id: VaultId)
    requires id in vaults
    ensures id in VaultsAfter(vaults, user) <==>
            if Theirs(vaults[id], user) then exists u :: OtherOwner(vaults[id], user, u) else vaults[id].ownerId != user
    ensures id in VaultsAfter(vaults, user) ==> StaysWithout(vaults[id], VaultsAfter(vaults, user)[id], user)
  {
    OwnersBesides(vaults[id], user);
  }

  lemma {:induction false} OwnersBesides(vault: Vault, user: UserId)
    ensures forall u :: u in OthersActive(vault, user) <==> OtherActive(vault, user, u)
    ensures forall u :: u in OtherOwners(vault, user) <==> OtherOwner(vault, user, u)
  {
  }

  /** It is refused exactly when some vault of theirs has others active in it and none of them an owner. */
  lemma {:induction false} RefusedMeans(vaults: map<VaultId, Vault>, user: UserId)
    ensures Refused(vaults, user) <==>
            exists id :: id in vaults && Theirs(vaults[id], user) && (exists u :: OtherActive(vaults[id], user, u)) && !(exists u :: OtherOwner(vaults[id], user, u))
  {
    forall id | id in vaults
      ensures SoleOwned(vaults[id], user) <==>
              Theirs(vaults[id], user) && (exists u :: OtherActive(vaults[id], user, u)) && !(exists u :: OtherOwner(vaults[id], user, u))
    {
      SoleOwnedMeans(vaults[id], user);
    }
  }

  lemma {:induction false} SoleOwnedMeans(vault: Vault, user: UserId)
    ensures SoleOwned(vault, user) <==>
            Theirs(vault, user) && (exists u :: OtherActive(vault, user, u)) && !(exists u :: OtherOwner(vault, user, u))
  {
    OwnersBesides(vault, user);
    if u :| u in OthersActive(vault, user) {
      assert OtherActive(vault, user, u);
    }
    if u :| u in OtherOwners(vault, user) {
      assert OtherOwner(vault, user, u);
    }
    if u :| OtherActive(vault, user, u) {
      assert u in OthersActive(vault, user);
    }
    if u :| OtherOwner(vault, user, u) {
      assert u in OtherOwners(vault, user);
    }
  }

  // ---- What it means for the log ----

  lemma {:induction false} BytesIn(rows: seq<Row>, vaults: set<VaultId>, id: VaultId)
    requires id in vaults
    ensures StoredBytes(RowsIn(rows, vaults), id) == StoredBytes(rows, id)
  {
    if rows != [] {
      var n := |rows| - 1;
      var kept := RowsIn(rows[..n], vaults);
      BytesIn(rows[..n], vaults, id);
      assert kept + [] == kept;
      assert (kept + [rows[n]])[..|kept|] == kept;
    }
  }

  lemma {:induction false} RowsStayOrdered(rows: seq<Row>, vaults: set<VaultId>)
    requires Ordered(rows)
    ensures Ordered(RowsIn(rows, vaults))
    ensures forall row :: row in RowsIn(rows, vaults) <==> row in rows && row.v.vaultId in vaults
  {
    var places := PlacesIn(rows, vaults);
    var after := RowsIn(rows, vaults);
    forall row | row in rows && row.v.vaultId in vaults
      ensures row in after
    {
      var i :| 0 <= i < |rows| && rows[i] == row;
      var k :| 0 <= k < |places| && places[k] == i;
      assert after[k] == row;
    }
  }

  /**
   * The log invariant survives an account deletion: rows of the vaults that stay are the
   * same in the same order, with counters and bytes exact, and no others are left.
   */
  lemma {:induction false} DeletionKeepsLog(db: Db, user: UserId)
    requires LogInv(db)
    ensures var vaults := VaultsAfter(db.vaults, user);
            var after := Db(vaults, RowsIn(db.records, vaults.Keys));
            && LogInv(after)
            && (forall row :: row in after.records <==> row in db.records && row.v.vaultId in vaults)
  {
    hide LeftBehind, Destroyed, RowsIn, Ordered;
    var vaults := VaultsAfter(db.vaults, user);
    var rows := RowsIn(db.records, vaults.Keys);
    RowsStayOrdered(db.records, vaults.Keys);
    forall id | id in vaults
      ensures vaults[id].usedBytes == StoredBytes(rows, id) && vaults[id].lastSeq == db.vaults[id].lastSeq && vaults[id].keyVersion == db.vaults[id].keyVersion
    {
      DeletionMeans(db.vaults, user, id);
      BytesIn(db.records, vaults.Keys, id);
    }
    forall row | row in rows
      ensures Placed(vaults, row)
    {
      assert Placed(db.vaults, row);
    }
    forall row | row in rows && IsPurged(row.v)
      ensures IsLowest(rows, row)
    {
      assert IsLowest(db.records, row);
    }
  }

  // ---- What deletion keeps ----

  /** A live shared vault has an active owner. */
  predicate Owned(vault: Vault) {
    vault.kind == Shared && !vault.deleted ==> ActiveOwners(vault) != {}
  }

  /** The user is the only active owner of a live shared vault that someone else is active in. */
  predicate OnlyOwnerOfOthers(vault: Vault, user: UserId) {
    vault.kind == Shared && !vault.deleted && OthersActive(vault, user) != {} && ActiveOwners(vault) == {user}
  }

  /** Deletion is refused exactly when the user is the only active owner of a live shared vault with others in it. */
  lemma {:induction false} RefusedExactly(vaults: map<VaultId, Vault>, user: UserId)
    requires forall id :: id in vaults ==> Owned(vaults[id])
    ensures Refused(vaults, user) <==> exists id :: id in vaults && OnlyOwnerOfOthers(vaults[id], user)
  {
    forall id | id in vaults
      ensures SoleOwned(vaults[id], user) <==> OnlyOwnerOfOthers(vaults[id], user)
    {
      SoleMeansOnly(vaults[id], user);
    }
  }

  lemma {:induction false} SoleMeansOnly(vault: Vault, user: UserId)
    requires Owned(vault)
    ensures SoleOwned(vault, user) <==> OnlyOwnerOfOthers(vault, user)
  {
    var owners := ActiveOwners(vault);
    forall u
      ensures u in OtherOwners(vault, user) <==> u in owners - {user}
    {
      assert u in OtherOwners(vault, user) <==> u in OthersActive(vault, user) && vault.members[u].role == Owner;
    }
    if OnlyOwnerOfOthers(vault, user) {
      assert user in owners;
    }
    if SoleOwned(vault, user) {
      assert owners - {user} == {};
      assert owners == {user};
    }
  }

  /** A deletion that goes through destroys no live shared vault that someone else is active in, directly or by the cascade. */
  lemma {:induction false} SharedVaultsSurvive(vaults: map<VaultId, Vault>, user: UserId, id: VaultId)
    requires !Refused(vaults, user) && id in vaults
    requires vaults[id].kind == Shared && !vaults[id].deleted && OthersActive(vaults[id], user) != {}
    ensures id in VaultsAfter(vaults, user)
    ensures VaultsAfter(vaults, user)[id].ownerId != user
    ensures forall u :: u in OthersActive(vaults[id], user) ==> u in VaultsAfter(vaults, user)[id].members && VaultsAfter(vaults, user)[id].members[u].status == Active
  {
    var vault := vaults[id];
    assert !SoleOwned(vault, user);
    if vault.ownerId == user {
      assert Least(OtherOwners(vault, user)) in OtherOwners(vault, user);
    }
  }

  // ---- Runs with account deletions ----

  /** What holds of every vault while accounts come and go: its key state, an active owner unless deleted, nobody else in a personal one. */
  ghost predicate Kept(vault: Vault) {
    KeyState(vault) && HasOwner(vault) && Private(vault)
  }

  ghost predicate AllKept(vaults: map<VaultId, Vault>) {
    forall id :: id in vaults ==> Kept(vaults[id])
  }

  ghost predicate Acts(vaults: map<VaultId, Vault>, next: map<VaultId, Vault>, keyPairs: map<UserId, nat>, id: VaultId, action: Action) {
    WellFormed(action) && next == Written(vaults, id, OutcomeOf(vaults, keyPairs, id, action))
  }

  ghost predicate Pushes(vaults: map<VaultId, Vault>, next: map<VaultId, Vault>) {
    next.Keys == vaults.Keys && forall id :: id in vaults ==> OnlyCounters(vaults[id], next[id])
  }

  ghost predicate Deletes(vaults: map<VaultId, Vault>, next: map<VaultId, Vault>, user: UserId) {
    next == if Refused(vaults, user) then vaults else VaultsAfter(vaults, user)
  }

  ghost predicate LifeStep(vaults: map<VaultId, Vault>, next: map<VaultId, Vault>) {
    || (exists keyPairs, id, action :: Acts(vaults, next, keyPairs, id, action))
    || Pushes(vaults, next)
    || (exists user :: Deletes(vaults, next, user))
  }

  /** The vaults over a run of sharing procedures, rotations, pushes, registrations and account deletions. */
  ghost predicate LifeRun(states: seq<map<VaultId, Vault>>) {
    && |states| > 0 && states[0] == map[]
    && forall i :: 0 <= i < |states| - 1 ==> LifeStep(states[i], states[i + 1])
  }

  lemma {:induction false} ActKeepsAll(vaults: map<VaultId, Vault>, next: map<VaultId, Vault>, keyPairs: map<UserId, nat>, id: VaultId, action: Action)
    requires AllKept(vaults) && Acts(vaults, next, keyPairs, id, action)
    ensures AllKept(next)
  {
    hide KeyState, HasOwner, Private, OutcomeOf, WellFormed;
    if OutcomeOf(vaults, keyPairs, id, action).Ok? {
      StepKeepsKeys(vaults, keyPairs, id, action);
      StepKeepsOwner(vaults, keyPairs, id, action);
      StepKeepsPrivate(vaults, keyPairs, id, action);
    }
  }

  lemma {:induction false} PushKeepsAll(vaults: map<VaultId, Vault>, next: map<VaultId, Vault>)
    requires AllKept(vaults) && Pushes(vaults, next)
    ensures AllKept(next)
  {
    forall id | id in next
      ensures Kept(next[id])
    {
      var before, after := vaults[id], next[id];
      assert Kept(before) && OnlyCounters(before, after);
      assert ActiveOwners(after) == ActiveOwners(before);
      forall u | u in after.members
        ensures MemberState(after, after.members[u])
      {
        assert MemberState(before, before.members[u]);
      }
    }
  }

  /** A vault that stays behind when an account goes keeps its links and seals, an owner, and its privacy. */
  lemma {:induction false} LeftBehindKept(vault: Vault, user: UserId)
    requires Kept(vault) && !Destroyed(vault, user)
    ensures Kept(LeftBehind(vault, user))
  {
    var after := LeftBehind(vault, user);
    forall u | u in after.members
      ensures MemberState(after, after.members[u])
    {
      assert MemberState(vault, vault.members[u]);
    }
    if !vault.deleted {
      var owner := AnyOf(if Concerned(vault, user) then OtherOwners(vault, user) else ActiveOwners(vault));
      assert owner in ActiveOwners(after);
    }
    if vault.kind == Personal {
      assert after.members.Keys == {vault.ownerId};
    }
  }

  lemma {:induction false} DeleteKeepsAll(vaults: map<VaultId, Vault>, next: map<VaultId, Vault>, user: UserId)
    requires AllKept(vaults) && Deletes(vaults, next, user)
    ensures AllKept(next)
  {
    hide Kept, LeftBehind, Destroyed, Refused;
    forall id | id in next
      ensures Kept(next[id])
    {
      if next != vaults {
        LeftBehindKept(vaults[id], user);
      }
    }
  }

  /**
   * Over every run in which members come and go, keys rotate and accounts are deleted,
   * each vault keeps an active owner unless it is deleted, its key state, and its privacy
   * when personal.
   */
  lemma {:induction false} LifeKeepsOwners(states: seq<map<VaultId, Vault>>, i: nat)
    requires LifeRun(states) && i < |states|
    ensures AllKept(states[i])
  {
    hide AllKept, Acts, Pushes, Deletes;
    if i == 0 {
      NoVaults();
    } else {
      LifeKeepsOwners(states, i - 1);
      var vaults, next := states[i - 1], states[i - 1 + 1];
      assert LifeStep(vaults, next);
      if Pushes(vaults, next) {
        PushKeepsAll(vaults, next);
      } else if user :| Deletes(vaults, next, user) {
        DeleteKeepsAll(vaults, next, user);
      } else {
        var keyPairs, id, action :| Acts(vaults, next, keyPairs, id, action);
        ActKeepsAll(vaults, next, keyPairs, id, action);
      }
    }
  }

  lemma {:induction false} NoVaults()
    ensures AllKept(map[])
  {
  }

  // ---- The rotation flag ----

  /** An account that is only invited, to a vault where no rotation is due. */
  predicate OnlyInvited(vault: Vault, user: UserId) {
    user in vault.members && vault.members[user].status == Pending && !vault.rotationNeeded
  }

  /**
   * Deletion drops an invite without marking the vault for a rotation. So the rotation
   * flag stays right for a live shared vault exactly when the account is not one that is
   * only invited there.
   */
  lemma {:induction false} FlagStaysRightUnlessInvited(vaults: map<VaultId, Vault>, user: UserId, id: VaultId, given: set<Given>)
    requires id in VaultsAfter(vaults, user)
    requires vaults[id].kind == Shared && !vaults[id].deleted
    requires VaultState(vaults[id], given)
    ensures FlagState(VaultsAfter(vaults, user)[id], given) <==> !OnlyInvited(vaults[id], user)
  {
    var vault := vaults[id];
    var after := LeftBehind(vault, user);
    if OnlyInvited(vault, user) {
      assert Given(user, vault.keyVersion) in given;
      assert user !in after.members;
    } else if !after.rotationNeeded {
      assert !ActiveIn(vault, user);
      forall g | g in given && g.keyVersion == vault.keyVersion
        ensures g.user in after.members
      {
        StaysUnlessInvited(vault, user, given, g.user);
      }
    }
  }

  lemma {:induction false} StaysUnlessInvited(vault: Vault, user: UserId, given: set<Given>, u: UserId)
    requires VaultState(vault, given) && !vault.rotationNeeded && !ActiveIn(vault, user) && !Destroyed(vault, user)
    requires vault.kind == Shared && !vault.deleted
    requires Given(u, vault.keyVersion) in given && !OnlyInvited(vault, user)
    ensures u in LeftBehind(vault, user).members
  {
    assert u in vault.members;
    if vault.members[u].status == Pending {
      assert SealedByActive(vault, vault.members[u]);
    }
  }

  /** Such a deletion: user 1 creates a vault and invites user 2, who never accepts and deletes their account. */
  lemma {:induction false} InviteeDeletionLeavesFlagClear(box: Cipher, wrap: Cipher) returns (states: seq<State>, vaults: map<VaultId, Vault>, given: set<Given>)
    ensures Run(states) && vaults == states[|states| - 1].vaults && given == GivenIn(states[|states| - 1], 10)
    ensures 10 in vaults && VaultState(vaults[10], given) && !Refused(vaults, 2)
    ensures 10 in VaultsAfter(vaults, 2) && !VaultsAfter(vaults, 2)[10].rotationNeeded
    ensures Given(2, VaultsAfter(vaults, 2)[10].keyVersion) in given && 2 !in VaultsAfter(vaults, 2)[10].members
  {
    var last := InvitedState(box, wrap);
    states := InvitedRun(box, wrap);
    vaults, given := last.vaults, GivenIn(last, 10);
    RunKeeps(states, 2);
    assert 1 in ActiveOwners(vaults[10]);
    assert 1 in vaults[10].members && !ActiveIn(vaults[10], 2);
    assert 1 in OtherOwners(vaults[10], 2);
  }

  /** Where that run ends: an owner and an invitee, with the key given to both. */
  function InvitedState(box: Cipher, wrap: Cipher): State {
    var owner := Member(Owner, Active, 1, Some(wrap), None);
    var invitee := Member(Read, Pending, 1, None, Some(Seal(box, 1, 1, Some(1), 1)));
    State(map[10 := Vault(1, Shared, false, 1, 0, 0, false, map[1 := owner, 2 := invitee], map[])],
          map[1 := 1, 2 := 1], map[10 := {Given(1, 1), Given(2, 1)}])
  }

  lemma {:induction false} InvitedRun(box: Cipher, wrap: Cipher) returns (states: seq<State>)
    ensures Run(states) && |states| == 3 && states[2] == InvitedState(box, wrap)
  {
    var keyPairs: map<UserId, nat> := map[1 := 1, 2 := 1];
    var empty := State(map[], keyPairs, map[]);
    var created := State(map[10 := NewVault(1, wrap)], keyPairs, map[10 := {Given(1, 1)}]);
    var creating := Creating(1, wrap);
    var inviting := Inviting(1, Invitation(Read, 1, Some(2), box, 1, 1));
    var invited := InvitedState(box, wrap);
    assert GivenIn(empty, 10) + NewlyGiven(NewVault(1, wrap), creating) == {Given(1, 1)};
    assert Written(empty.vaults, 10, Create(empty.vaults, 10, 1, wrap)) == created.vaults;
    assert ActStep(empty, created, 10, creating);
    InvitedStep(box, wrap, created);
    states := [empty, created, invited];
  }

  lemma {:induction false} InvitedStep(box: Cipher, wrap: Cipher, created: State)
    requires created == State(map[10 := NewVault(1, wrap)], map[1 := 1, 2 := 1], map[10 := {Given(1, 1)}])
    ensures ActStep(created, InvitedState(box, wrap), 10, Inviting(1, Invitation(Read, 1, Some(2), box, 1, 1)))
  {
    var invitation := Invitation(Read, 1, Some(2), box, 1, 1);
    var outcome := Invite(created.vaults, created.keyPairs, 10, 1, invitation);
    var invited := InvitedState(box, wrap);
    var vault := created.vaults[10];
    assert vault.members.Keys == {1};
    assert |vault.members| == |vault.members.Keys|;
    assert vault.members[2 := Invitee(1, invitation)] == invited.vaults[10].members;
    assert outcome == Ok(invited.vaults[10]);
    assert GivenIn(created, 10) + NewlyGiven(outcome.value, Inviting(1, invitation)) == invited.given[10];
    assert Written(created.vaults, 10, outcome) == invited.vaults;
  }
}
