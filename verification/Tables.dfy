/**
 * The server's tables: vaults (with their member rows and key links grouped under
 * them), record versions, and the database object the procedures work on.
 * Ids are opaque values with an order; only that order matters.
 */
module Tables {
  import opened Prelude
  import opened Crypto

  type UserId = int
  type VaultId = int
  type RecordId = int
  type ChangeId = int

  datatype Role = Owner | Manage | Write | Read

  const VAULT_WRITE_ROLES: set<Role> := {Owner, Manage, Write}
  const VAULT_MANAGE_ROLES: set<Role> := {Owner, Manage}

  datatype Kind = Personal | Shared
  datatype Status = Active | Pending

  /** A vault key sealed to a member, not yet turned into their own wrap. */
  datatype Seal = Seal(box: Cipher, keyVersion: nat, sealedTo: nat, sealedBy: Option<UserId>, sealedByKeyVersion: nat)

  /** A member row; `keyVersion` is the wrap's version, or the sealed key's while pending. */
  datatype Member = Member(role: Role, status: Status, keyVersion: nat, wrap: Option<Cipher>, seal: Option<Seal>)

  datatype Vault = Vault(
    ownerId: UserId,
    kind: Kind,
    deleted: bool,
    keyVersion: nat,
    lastSeq: nat,
    usedBytes: int,
    rotationNeeded: bool,
    members: map<UserId, Member>,
    links: map<nat, Cipher>)

  datatype TombstoneKind = Moved | Purged

  /** One version of a record, without the seq it gets when written. */
  datatype Version = Version(
    recordId: RecordId,
    vaultId: VaultId,
    userId: UserId,
    version: nat,
    clientUpdatedAt: int,
    clientChangeId: ChangeId,
    encryptedData: string,
    encryptionNonce: string,
    cryptoVersion: nat,
    keyVersion: nat,
    deleted: bool,
    tombstoneKind: Option<TombstoneKind>)

  /** A stored version: `seqNo` is its place in its vault's write order. */
  datatype Row = Row(v: Version, seqNo: nat)

  /** A stored version as a client sees it: without author, change id and seq. */
  datatype Copy = Copy(
    recordId: RecordId,
    vaultId: VaultId,
    version: nat,
    clientUpdatedAt: int,
    encryptedData: string,
    encryptionNonce: string,
    cryptoVersion: nat,
    keyVersion: nat,
    deleted: bool,
    tombstoneKind: Option<TombstoneKind>)

  function SerializeRecord(row: Row): Copy {
    Copy(row.v.recordId, row.v.vaultId, row.v.version, row.v.clientUpdatedAt, row.v.encryptedData,
         row.v.encryptionNonce, row.v.cryptoVersion, row.v.keyVersion, row.v.deleted, row.v.tombstoneKind)
  }

  predicate IsPurged(x: Version) {
    x.tombstoneKind == Some(Purged)
  }

  /** The tables at one moment; `records` holds the rows in the order they were written. */
  datatype Db = Db(vaults: map<VaultId, Vault>, records: seq<Row>)

  class Database {
    var vaults: map<VaultId, Vault>
    var records: seq<Row>

    constructor (vaults: map<VaultId, Vault>, records: seq<Row>)
      ensures State() == Db(vaults, records)
    {
      this.vaults := vaults;
      this.records := records;
    }

    function State(): Db
      reads this
    {
      Db(vaults, records)
    }
  }

  /** An estimate of a version's ids, timestamps and nonce. */
  const RECORD_VERSION_OVERHEAD_BYTES: nat := 256

  /** A version's size against the push limit and the storage quota. */
  function PushChangeBytes(encryptedData: string): nat {
    |encryptedData| + RECORD_VERSION_OVERHEAD_BYTES
  }

  /** What the stored versions of a vault take up. */
  function StoredBytes(rows: seq<Row>, vaultId: VaultId): nat {
    if rows == [] then 0 else
      var last := rows[|rows| - 1].v;
      StoredBytes(rows[..|rows| - 1], vaultId) + (if last.vaultId == vaultId then PushChangeBytes(last.encryptedData) else 0)
  }

  /** The newest version of a record, deleted or not. */
  function Head(rows: seq<Row>, recordId: RecordId): (head: Option<Row>)
    ensures head.None? <==> forall row :: row in rows ==> row.v.recordId != recordId
    ensures head.Some? ==> head.value in rows && head.value.v.recordId == recordId
    ensures head.Some? ==> forall row :: row in rows && row.v.recordId == recordId ==> row.v.version <= head.value.v.version
  {
    if rows == [] then None else
      var last := rows[|rows| - 1];
      var below := Head(rows[..|rows| - 1], recordId);
      if last.v.recordId == recordId && (below.None? || below.value.v.version < last.v.version) then Some(last) else below
  }

  /** The version a change wrote before, if the record still has it. */
  function StoredChange(rows: seq<Row>, recordId: RecordId, changeId: ChangeId): (stored: Option<Row>)
    ensures stored.Some? ==> stored.value in rows && stored.value.v.recordId == recordId && stored.value.v.clientChangeId == changeId
    ensures stored.None? ==> forall row :: row in rows && row.v.recordId == recordId ==> row.v.clientChangeId != changeId
  {
    if rows == [] then None else
      var last := rows[|rows| - 1];
      if last.v.recordId == recordId && last.v.clientChangeId == changeId then Some(last)
      else StoredChange(rows[..|rows| - 1], recordId, changeId)
  }
}
