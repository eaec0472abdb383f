/**
 * The data shapes the dispatch engine moves around: the audit row it reads
 * and the payloads it hands to the remote endpoint. Nullable C# strings are
 * `Option<string>`; date-time fields and JSON attributes are not modelled.
 */
module Models {
  import opened Wrappers

  /**
   * One row of the audit table. `additionalId` and `retryCount` are read by
   * the engine although the record class in the repository does not declare
   * them; they are the table's Additional_ID and RetryCount columns.
   */
  datatype AuditRecord = AuditRecord(
    id: int,
    objectId: Option<string>,
    additionalId: Option<string>,
    objectType: Option<string>,
    actionType: Option<string>,
    status: int,
    retryCount: int)

  datatype Device = Device(
    gid: Option<string>,
    name: Option<string>,
    deviceType: Option<string>,
    masterDeviceId: Option<int>,
    status: Option<string>)

  datatype KeyGroup = KeyGroup(
    gid: Option<string>,
    groupIdApi: Option<string>,
    name: Option<string>,
    description: Option<string>)

  datatype Credential = Credential(methodName: Option<string>, credentialValue: Option<string>)

  datatype Person = Person(
    gid: Option<string>,
    ownerIdApi: Option<string>,
    firstName: Option<string>,
    lastName: Option<string>,
    credentials: seq<Credential>,
    keyIds: seq<int>)

  datatype Key = Key(
    keyId: int,
    deviceId: int,
    gid: Option<string>,
    keyIdExt: Option<string>,
    serialNumberExt: Option<string>,
    name: Option<string>,
    keyType: Option<string>,
    syncOutPending: bool)

  datatype Reservation = Reservation(
    reservationId: int,
    gid: Option<string>,
    ownerIdApi: Option<string>,
    keyIdExt: Option<string>)

  datatype CredentialData = CredentialData(
    methodName: Option<string>,
    credential: Option<string>,
    ownerIdApi: Option<string>)

  /** Key-to-person link; the engine builds it with string key ids. */
  datatype KeyUser = KeyUser(ownerIdApi: Option<string>, keyIdExts: seq<string>)

  datatype KeyGroupKey = KeyGroupKey(groupIdApi: Option<string>, keyIdExts: seq<string>)

  datatype KeyGroupUser = KeyGroupUser(groupIdApi: Option<string>, ownerIdApis: seq<string>)

  /** The `object data` passed from the fetch step to the send step, as a closed sum. */
  datatype Payload =
    | DevicePayload(device: Device)
    | KeyGroupPayload(keyGroup: KeyGroup)
    | PersonPayload(person: Person)
    | KeyPayload(key: Key)
    | ReservationPayload(reservation: Reservation)
    | CredentialPayload(credentialData: CredentialData)
    | KeyUserPayload(keyUser: KeyUser)
    | KeyGroupKeyPayload(keyGroupKey: KeyGroupKey)
    | KeyGroupUserPayload(keyGroupUser: KeyGroupUser)

  /** `new Person { OwnerIdApi = ownerIdApi }`: every other field keeps its default. */
  function PersonWithOwner(ownerIdApi: Option<string>): (p: Person)
    ensures p.ownerIdApi == ownerIdApi
    ensures p.gid.None? && p.firstName.None? && p.lastName.None?
    ensures p.credentials == [] && p.keyIds == []
  {
    Person(None, ownerIdApi, None, None, [], [])
  }
}
