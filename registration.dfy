/**
  `handle_registration`: the two-stage device registration handshake.

  The stage is chosen by the packet's camera id. An all-zero id is a first
  registration: the user must exist, then a device row is inserted under a
  freshly drawn random id, drawing again for as long as the insert hits the
  primary-key constraint. A non-zero id is the second stage: an existing
  device is refused and an unknown one accepted, with nothing written.

  The random id generator is modelled by the sequence of ids it will
  produce. The source draws without bound; running out of the supplied ids
  (`OutOfIds`) is an outcome of the model only.
 */
module Registration {
  import opened Bytes
  import opened Packets
  import opened Persistence

  /** `DeviceRegisterError`; the diesel error inside `DatabaseError` is not kept. */
  datatype DeviceRegisterError = UserDoesNotExist | DatabaseError | OtherError

  datatype RegistrationOutcome =
    | Registered                           // Ok(())
    | Rejected(error: DeviceRegisterError) // Err(..)
    | OutOfIds                             // the supplied ids ran out (model only)

  /** The outcome, the database afterwards and the ids not yet drawn. */
  datatype Registration = Registration(outcome: RegistrationOutcome, store: Store, ids: seq<Bytes16>)

  /** The row a first-stage registration inserts under device id `id`. */
  function FirstStageDevice(p: RegisterDevicePacket, id: seq<byte>): (d: Device)
    ensures d.deviceId == id && d.registrationFirstStage
    ensures d.userId == p.userId && d.authKey == p.authKey && d.macAddress == p.macAddress
  {
    Device(id, p.macAddress, p.authKey, true, p.userId)
  }

  /** The insert loop: insert `d`; on a unique violation draw the next id and retry. */
  function InsertLoop(s: Store, d: Device, ids: seq<Bytes16>): (r: Registration)
    ensures r.store.users == s.users && |r.ids| <= |ids|
    ensures r.outcome != Rejected(UserDoesNotExist) && r.outcome != Rejected(OtherError)
    decreases |ids|
  {
    var (res, s') := DeviceInsert(s, d);
    match res
    case Inserted => Registration(Registered, s', ids)
    case InsertFailed => Registration(Rejected(DatabaseError), s', ids)
    case UniqueViolation =>
      if ids == [] then Registration(OutOfIds, s', ids)
      else InsertLoop(s', d.(deviceId := ids[0]), ids[1..])
  }

  /** What `handle_registration` does with packet `p`, given database `s`
      and the ids the generator will produce. */
  function Register(s: Store, ids: seq<Bytes16>, p: RegisterDevicePacket): (r: Registration)
    ensures r.store.users == s.users
    ensures |r.ids| <= |ids|
    ensures p.cameraId != ZeroId ==> r.ids == ids && r.store.devices == s.devices
  {
    if p.cameraId == ZeroId then
      var (user, s') := UserQuery(s, p.userId);
      match user
      case Found(_) =>
        if ids == [] then Registration(OutOfIds, s', ids)
        else InsertLoop(s', FirstStageDevice(p, ids[0]), ids[1..])
      case NotFound => Registration(Rejected(UserDoesNotExist), s', ids)
      case LookupFailed => Registration(Rejected(DatabaseError), s', ids)
    else
      var (device, s') := DeviceQuery(s, p.cameraId);
      match device
      case Found(_) => Registration(Rejected(OtherError), s', ids)
      case NotFound => Registration(Registered, s', ids)
      case LookupFailed => Registration(Rejected(DatabaseError), s', ids)
  }

  /** The insert loop draws ids in order and only ever adds the row it
      finally inserts: every id it drew before that one was already taken,
      the inserted id was free, and nothing else in any table changes. A
      failed or exhausted loop leaves the device table as it was. */
  lemma {:induction false} InsertLoopEffect(s: Store, d: Device, ids: seq<Bytes16>)
    ensures var r := InsertLoop(s, d, ids);
            var drawn := [d.deviceId] + ids;
            var k := |ids| - |r.ids|;
            && 0 <= k <= |ids| && r.ids == ids[k..]
            && r.store.users == s.users && r.store.failing == s.failing
            && (r.outcome.Registered? || r.outcome == Rejected(DatabaseError) || r.outcome.OutOfIds?)
            && (forall j :: 0 <= j < k ==> drawn[j] in s.devices)
            && (r.outcome.OutOfIds? ==> k == |ids| && drawn[k] in s.devices)
            && (r.outcome.Registered? ==>
                  drawn[k] !in s.devices && r.store.devices == s.devices[drawn[k] := d.(deviceId := drawn[k])])
            && (!r.outcome.Registered? ==> r.store.devices == s.devices)
  {
    InsertLoopDraws(s, d, ids);
    InsertLoopRows(s, d, ids);
  }

  /** The ids part of `InsertLoopEffect`: which ids were drawn and which of them were taken. */
  lemma {:induction false} InsertLoopDraws(s: Store, d: Device, ids: seq<Bytes16>)
    ensures var r := InsertLoop(s, d, ids);
            var drawn := [d.deviceId] + ids;
            var k := |ids| - |r.ids|;
            && 0 <= k <= |ids| && r.ids == ids[k..]
            && r.store.failing == s.failing
            && (r.outcome.Registered? || r.outcome == Rejected(DatabaseError) || r.outcome.OutOfIds?)
            && (forall j :: 0 <= j < k ==> drawn[j] in s.devices)
            && (r.outcome.OutOfIds? ==> k == |ids| && drawn[k] in s.devices)
            && (r.outcome.Registered? ==> drawn[k] !in s.devices)
    decreases |ids|
  {
    var (res, s') := DeviceInsert(s, d);
    if res.UniqueViolation? && ids != [] {
      var d' := d.(deviceId := ids[0]);
      InsertLoopDraws(s', d', ids[1..]);
      var r := InsertLoop(s, d, ids);
      assert r == InsertLoop(s', d', ids[1..]);
      var drawn := [d.deviceId] + ids;
      assert [d'.deviceId] + ids[1..] == ids;
      var k := |ids| - |r.ids|;
      assert ids[1..][k - 1..] == ids[k..];
      forall j | 0 <= j < k
        ensures drawn[j] in s.devices
      {
        if j > 0 {
          assert drawn[j] == ids[j - 1];
        }
      }
      assert drawn[k] == ids[k - 1];
    }
  }

  /** The rows part of `InsertLoopEffect`: only the finally inserted row is added. */
  lemma {:induction false} InsertLoopRows(s: Store, d: Device, ids: seq<Bytes16>)
    ensures var r := InsertLoop(s, d, ids);
            var drawn := [d.deviceId] + ids;
            var k := |ids| - |r.ids|;
            && 0 <= k <= |ids|
            && (r.outcome.Registered? ==> r.store.devices == s.devices[drawn[k] := d.(deviceId := drawn[k])])
            && (!r.outcome.Registered? ==> r.store.devices == s.devices)
    decreases |ids|
  {
    var (res, s') := DeviceInsert(s, d);
    if res.UniqueViolation? && ids != [] {
      var d' := d.(deviceId := ids[0]);
      InsertLoopRows(s', d', ids[1..]);
      var r := InsertLoop(s, d, ids);
      assert r == InsertLoop(s', d', ids[1..]);
      var k := |ids| - |r.ids|;
      assert ([d'.deviceId] + ids[1..])[k - 1] == ([d.deviceId] + ids)[k];
    }
  }

  /** Given ids that are not all taken and no faults on the way, the loop
      succeeds: it retries past every taken id up to the first free one. */
  lemma {:induction false} InsertLoopSucceeds(s: Store, d: Device, ids: seq<Bytes16>, j: nat)
    requires j <= |ids| && ([d.deviceId] + ids)[j] !in s.devices
    requires forall i :: s.ops <= i <= s.ops + j ==> i !in s.failing
    ensures InsertLoop(s, d, ids).outcome.Registered?
    decreases |ids|
  {
    var (res, s') := DeviceInsert(s, d);
    if res.UniqueViolation? {
      assert j > 0;
      assert ([ids[0]] + ids[1..])[j - 1] == ([d.deviceId] + ids)[j];
      InsertLoopSucceeds(s', d.(deviceId := ids[0]), ids[1..], j - 1);
    }
  }

  /** The insert loop ends in `DatabaseError` exactly when its last insert
      hits a fault; every insert before that one ran without a fault, and
      the loop ran one database operation per id it tried. */
  lemma {:induction false} InsertLoopFault(s: Store, d: Device, ids: seq<Bytes16>)
    ensures var r := InsertLoop(s, d, ids);
            var k := |ids| - |r.ids|;
            && (r.outcome == Rejected(DatabaseError) <==> s.ops + k in s.failing)
            && (forall i :: s.ops <= i < s.ops + k ==> i !in s.failing)
            && r.store.ops == s.ops + k + 1
    decreases |ids|
  {
    var (res, s') := DeviceInsert(s, d);
    if res.UniqueViolation? && ids != [] {
      InsertLoopFault(s', d.(deviceId := ids[0]), ids[1..]);
    }
  }

  /** First stage with an unknown user: `UserDoesNotExist` is returned exactly
      when the camera id is zero and the user lookup finds no user, and then
      no device row is inserted and no id is drawn. */
  lemma RegisterUnknownUser(s: Store, ids: seq<Bytes16>, p: RegisterDevicePacket)
    ensures Register(s, ids, p).outcome == Rejected(UserDoesNotExist)
            <==> p.cameraId == ZeroId && !Faulty(s) && p.userId !in s.users
    ensures Register(s, ids, p).outcome == Rejected(UserDoesNotExist) ==>
              Register(s, ids, p).store.devices == s.devices && Register(s, ids, p).ids == ids
  {
    if p.cameraId == ZeroId && ids != [] {
      InsertLoopEffect(Tick(s), FirstStageDevice(p, ids[0]), ids[1..]);
    }
  }

  /** First stage with a failing user lookup: `DatabaseError`, nothing written. */
  lemma RegisterUserLookupFails(s: Store, ids: seq<Bytes16>, p: RegisterDevicePacket)
    requires p.cameraId == ZeroId && Faulty(s)
    ensures Register(s, ids, p) == Registration(Rejected(DatabaseError), Tick(s), ids)
  {
  }

  /** A successful first stage inserts exactly one row: under the first id
      drawn that was not taken, with the first-stage flag set and the auth
      key, MAC address and user id of the packet. All earlier draws were
      taken ids; no existing row changes. */
  lemma RegisterFirstStageInserts(s: Store, ids: seq<Bytes16>, p: RegisterDevicePacket)
    requires p.cameraId == ZeroId
    requires Register(s, ids, p).outcome.Registered?
    ensures var r := Register(s, ids, p);
            var i := |ids| - |r.ids| - 1;
            && 0 <= i < |ids| && r.ids == ids[i + 1..]
            && ids[i] !in s.devices
            && (forall j :: 0 <= j < i ==> ids[j] in s.devices)
            && r.store.devices == s.devices[ids[i] := FirstStageDevice(p, ids[i])]
  {
    var d := FirstStageDevice(p, ids[0]);
    InsertLoopEffect(Tick(s), d, ids[1..]);
    var r := Register(s, ids, p);
    assert r == InsertLoop(Tick(s), d, ids[1..]);
    assert [d.deviceId] + ids[1..] == ids;
    var i := |ids| - |r.ids| - 1;
    assert ids[1..][i..] == ids[i + 1..];
    assert d.(deviceId := ids[i]) == FirstStageDevice(p, ids[i]);
  }

  /** Registration never removes or alters an existing device row, never
      touches the user table, keeps every row under its own id, and only
      writes at all on a successful first stage. */
  lemma RegisterPreservesRows(s: Store, ids: seq<Bytes16>, p: RegisterDevicePacket)
    ensures var r := Register(s, ids, p);
            && r.store.users == s.users
            && (forall k :: k in s.devices ==> k in r.store.devices && r.store.devices[k] == s.devices[k])
            && (WellKeyed(s.devices) ==> WellKeyed(r.store.devices))
            && (!r.outcome.Registered? || p.cameraId != ZeroId ==> r.store.devices == s.devices)
  {
    if p.cameraId == ZeroId && ids != [] && UserQuery(s, p.userId).0.Found? {
      InsertLoopEffect(Tick(s), FirstStageDevice(p, ids[0]), ids[1..]);
    }
  }

  /** With an existing user, no faults and some id among the first `i + 1`
      draws that is not taken, the first stage registers the device: the
      retry loop does end once the generator produces a free id. */
  lemma RegisterEventuallySucceeds(s: Store, ids: seq<Bytes16>, p: RegisterDevicePacket, i: nat)
    requires p.cameraId == ZeroId && p.userId in s.users
    requires i < |ids| && ids[i] !in s.devices
    requires forall n :: s.ops <= n <= s.ops + 1 + i ==> n !in s.failing
    ensures Register(s, ids, p).outcome.Registered?
  {
    var d := FirstStageDevice(p, ids[0]);
    assert ([d.deviceId] + ids[1..])[i] == ids[i];
    InsertLoopSucceeds(Tick(s), d, ids[1..], i);
  }

  /** Second stage: nothing is written and no id is drawn; an existing device
      id is refused with `OtherError`, an unknown one accepted, and a failing
      lookup is a `DatabaseError`. */
  lemma RegisterSecondStage(s: Store, ids: seq<Bytes16>, p: RegisterDevicePacket)
    requires p.cameraId != ZeroId
    ensures var r := Register(s, ids, p);
            && r.store == Tick(s) && r.ids == ids
            && (Faulty(s) ==> r.outcome == Rejected(DatabaseError))
            && (!Faulty(s) ==> (r.outcome == Rejected(OtherError) <==> p.cameraId in s.devices))
            && (!Faulty(s) ==> (r.outcome.Registered? <==> p.cameraId !in s.devices))
  {
  }

  /** `rand::thread_rng()` filling a device id: yields the ids it was given, in order. */
  class IdSource {
    var candidates: seq<Bytes16>

    constructor (candidates: seq<Bytes16>)
      ensures this.candidates == candidates
    {
      this.candidates := candidates;
    }

    method Fill() returns (id: Option<Bytes16>)
      modifies this
      ensures old(candidates) == [] ==> id == None && candidates == []
      ensures old(candidates) != [] ==> id == Some(old(candidates)[0]) && candidates == old(candidates)[1..]
    {
      if candidates == [] {
        id := None;
      } else {
        id := Some(candidates[0]);
        candidates := candidates[1..];
      }
    }
  }

  /** `handle_registration`: queries and inserts against `db`, drawing device
      ids from `rng`; the retry loop rewrites the pending row's id in place. */
  method HandleRegistration(db: Database, rng: IdSource, packet: RegisterDevicePacket)
    returns (outcome: RegistrationOutcome)
    modifies db, rng
    ensures Registration(outcome, db.State(), rng.candidates)
            == Register(old(db.State()), old(rng.candidates), packet)
  {
    if packet.cameraId == ZeroId {
      var user := db.FindUser(packet.userId);
      match user {
        case Found(_) =>
          var newDevice := Device(packet.cameraId, packet.macAddress, packet.authKey, true, packet.userId);
          var id := rng.Fill();
          if id.None? {
            return OutOfIds;
          }
          newDevice := newDevice.(deviceId := id.value);
          while true
            invariant Register(old(db.State()), old(rng.candidates), packet)
                      == InsertLoop(db.State(), newDevice, rng.candidates)
            decreases |rng.candidates|
          {
            var inserted := db.InsertDevice(newDevice);
            match inserted {
              case Inserted =>
                return Registered;
              case UniqueViolation =>
                id := rng.Fill();
                if id.None? {
                  return OutOfIds;
                }
                newDevice := newDevice.(deviceId := id.value);
              case InsertFailed =>
                return Rejected(DatabaseError);
            }
          }
        case NotFound =>
          return Rejected(UserDoesNotExist);
        case LookupFailed =>
          return Rejected(DatabaseError);
      }
    } else {
      var device := db.FindDevice(packet.cameraId);
      match device {
        case Found(_) =>
          return Rejected(OtherError);
        case NotFound =>
          return Registered;
        case LookupFailed =>
          return Rejected(DatabaseError);
      }
    }
  }
}
