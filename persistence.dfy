/**
  The persistence collaborator the registration handler talks to: a user
  table (only its ids matter here) and the device table, with the three
  queries the handler issues. Faults are injected by operation number: the
  operations whose number is in `failing` return an error other than
  `NotFound` or `UniqueViolation`, and change nothing.
 */
module Persistence {
  import opened Bytes

  /** A row of the device table (`model::Device`). */
  datatype Device = Device(
    deviceId: seq<byte>,
    macAddress: seq<byte>,
    authKey: seq<byte>,
    registrationFirstStage: bool,
    userId: seq<byte>)

  /** The database's contents, its fault plan and how many operations it has run. */
  datatype Store = Store(
    users: set<seq<byte>>,
    devices: map<seq<byte>, Device>,
    failing: set<nat>,
    ops: nat)

  /** Outcome of `find(..).first(..)`: the row, diesel's `NotFound`, or any other error. */
  datatype Lookup<+T> = Found(row: T) | NotFound | LookupFailed

  /** Outcome of an insert: success, `UniqueViolation` on the primary key, or any other error. */
  datatype Insert = Inserted | UniqueViolation | InsertFailed

  /** Every device row is stored under its own device id (the primary key). */
  ghost predicate WellKeyed(devices: map<seq<byte>, Device>)
  {
    forall k :: k in devices ==> devices[k].deviceId == k
  }

  /** Whether the next operation is one of the injected faults. */
  predicate Faulty(s: Store)
  {
    s.ops in s.failing
  }

  /** The store after one more operation that changed no table. */
  function Tick(s: Store): Store
  {
    s.(ops := s.ops + 1)
  }

  function UserQuery(s: Store, userId: seq<byte>): (r: (Lookup<seq<byte>>, Store))
    ensures r.0.Found? ==> r.0.row == userId && userId in s.users
    ensures r.0.NotFound? ==> userId !in s.users
    ensures r.1.users == s.users && r.1.devices == s.devices && r.1.ops == s.ops + 1
  {
    (if Faulty(s) then LookupFailed else if userId in s.users then Found(userId) else NotFound, Tick(s))
  }

  function DeviceQuery(s: Store, deviceId: seq<byte>): (r: (Lookup<Device>, Store))
    ensures r.0.Found? ==> deviceId in s.devices && r.0.row == s.devices[deviceId]
    ensures r.0.NotFound? ==> deviceId !in s.devices
    ensures r.1.users == s.users && r.1.devices == s.devices && r.1.ops == s.ops + 1
  {
    (if Faulty(s) then LookupFailed else if deviceId in s.devices then Found(s.devices[deviceId]) else NotFound,
     Tick(s))
  }

  function DeviceInsert(s: Store, d: Device): (r: (Insert, Store))
    ensures r.0.Inserted? ==>
              (d.deviceId !in s.devices && d.deviceId in r.1.devices
               && r.1.devices[d.deviceId] == d && r.1.devices.Keys == s.devices.Keys + {d.deviceId})
    ensures r.0.Inserted? ==> forall k :: k in s.devices ==> r.1.devices[k] == s.devices[k]
    ensures r.0.UniqueViolation? ==> d.deviceId in s.devices
    ensures !r.0.Inserted? ==> r.1.devices == s.devices
    ensures r.1.users == s.users && r.1.ops == s.ops + 1
  {
    if Faulty(s) then (InsertFailed, Tick(s))
    else if d.deviceId in s.devices then (UniqueViolation, Tick(s))
    else (Inserted, Tick(s).(devices := s.devices[d.deviceId := d]))
  }

  /** The database behind `MainDatabase`, one query at a time. */
  class Database {
    var users: set<seq<byte>>
    var devices: map<seq<byte>, Device>
    const failing: set<nat>
    var ops: nat

    constructor (users: set<seq<byte>>, devices: map<seq<byte>, Device>, failing: set<nat>)
      ensures State() == Store(users, devices, failing, 0)
    {
      this.users := users;
      this.devices := devices;
      this.failing := failing;
      this.ops := 0;
    }

    function State(): Store
      reads this
    {
      Store(users, devices, failing, ops)
    }

    method FindUser(userId: seq<byte>) returns (r: Lookup<seq<byte>>)
      modifies this
      ensures (r, State()) == UserQuery(old(State()), userId)
    {
      r := if ops in failing then LookupFailed else if userId in users then Found(userId) else NotFound;
      ops := ops + 1;
    }

    method FindDevice(deviceId: seq<byte>) returns (r: Lookup<Device>)
      modifies this
      ensures (r, State()) == DeviceQuery(old(State()), deviceId)
    {
      r := if ops in failing then LookupFailed
           else if deviceId in devices then Found(devices[deviceId]) else NotFound;
      ops := ops + 1;
    }

    method InsertDevice(d: Device) returns (r: Insert)
      modifies this
      ensures (r, State()) == DeviceInsert(old(State()), d)
    {
      if ops in failing {
        r := InsertFailed;
      } else if d.deviceId in devices {
        r := UniqueViolation;
      } else {
        r := Inserted;
        devices := devices[d.deviceId := d];
      }
      ops := ops + 1;
    }
  }
}
