/** Binding devices to licenses under the device cap (server/src/device/device.service.ts). */
module DeviceService {
  import opened Rows
  import opened LeaseService

  // ---------------------------------------------------------------------------
  // Specification

  function ActiveDevices(s: Db, lic: KeyHash): set<string> {
    set d | d in s.devices && s.devices[d].license == lic && s.devices[d].status == DeviceActive
  }

  function MarkRemoved(devices: map<string, Device>, d: string): map<string, Device>
    requires d in devices
  {
    devices[d := devices[d].(status := DeviceRemoved, unbindCount := devices[d].unbindCount + 1)]
  }

  function Touch(s: Db, d: string, appVersion: string): Db
    requires d in s.devices
  {
    s.(devices := s.devices[d := s.devices[d].(lastSeenAt := s.now, appVersion := appVersion)])
  }

  function Create(s: Db, lic: KeyHash, d: string, appVersion: string): Db {
    s.(devices := s.devices[d := Device(lic, DeviceActive, s.now, 0, appVersion)])
  }

  /** Remove an active device to make room: row first, then its leases. */
  function Kick(s: Db, d: string): Db
    requires d in s.devices
  {
    s.(devices := MarkRemoved(s.devices, d), leases := RevokeActive(s.leases, d))
  }

  /** `kicked` is the database's pick among the least recently seen devices. */
  function GetOrCreate(s: Db, lic: KeyHash, maxDevices: int, d: string, appVersion: string, policy: BindingPolicy, kicked: string): (out: (Db, Result<()>))
    ensures out.0 == s.(devices := out.0.devices, leases := out.0.leases)
  {
    if d in s.devices then
      if s.devices[d].license != lic || s.devices[d].status != DeviceActive then (s, Err(DeviceGone))
      else (Touch(s, d, appVersion), Ok(()))
    else if |ActiveDevices(s, lic)| < maxDevices then (Create(s, lic, d, appVersion), Ok(()))
    else if policy != KickOldest || ActiveDevices(s, lic) == {} || kicked !in s.devices then (s, Err(DeviceLimitReached))
    else (Create(Kick(s, kicked), lic, d, appVersion), Ok(()))
  }

  predicate KickChoiceOk(s: Db, lic: KeyHash, maxDevices: int, d: string, policy: BindingPolicy, kicked: string) {
    d !in s.devices && |ActiveDevices(s, lic)| >= maxDevices && policy == KickOldest && ActiveDevices(s, lic) != {} ==>
      IsOldest(s.devices, ActiveDevices(s, lic), kicked)
  }

  function FindActive(s: Db, d: string): Result<()> {
    if d !in s.devices || s.devices[d].status == DeviceRemoved then Err(DeviceGone)
    else if s.devices[d].status == DeviceBanned then Err(DeviceGone)
    else Ok(())
  }

  // ---------------------------------------------------------------------------
  // The service

  method GetOrCreateDevice(db: Database, lic: KeyHash, maxDevices: int, d: string, appVersion: string, policy: BindingPolicy)
    returns (r: Result<()>, ghost kicked: string)
    modifies db`devices, db`leases
    ensures KickChoiceOk(old(db.State()), lic, maxDevices, d, policy, kicked)
    ensures (db.State(), r) == GetOrCreate(old(db.State()), lic, maxDevices, d, appVersion, policy, kicked)
  {
    kicked := "";
    if d in db.devices {
      var existing := db.devices[d];
      if existing.license != lic || existing.status == DeviceRemoved { return Err(DeviceGone), kicked; }
      if existing.status == DeviceBanned { return Err(DeviceGone), kicked; }
      db.devices := db.devices[d := existing.(lastSeenAt := db.now, appVersion := appVersion)];
      return Ok(()), kicked;
    }
    var active := set e | e in db.devices && db.devices[e].license == lic && db.devices[e].status == DeviceActive;
    if |active| >= maxDevices {
      if policy != KickOldest { return Err(DeviceLimitReached), kicked; }
      if active == {} { return Err(DeviceLimitReached), kicked; }
      ghost var some := OldestExists(db.devices, active);
      var oldest :| oldest in active && IsOldest(db.devices, active, oldest);
      kicked := oldest;
      db.devices := db.devices[oldest := db.devices[oldest].(status := DeviceRemoved, unbindCount := db.devices[oldest].unbindCount + 1)];
      RevokeActiveByDevice(db, oldest);
    }
    db.devices := db.devices[d := Device(lic, DeviceActive, db.now, 0, appVersion)];
    r := Ok(());
  }

  method TouchDevice(db: Database, d: string, appVersion: string)
    requires d in db.devices
    modifies db`devices
    ensures db.State() == Touch(old(db.State()), d, appVersion)
  {
    db.devices := db.devices[d := db.devices[d].(lastSeenAt := db.now, appVersion := appVersion)];
  }

  method RemoveDevice(db: Database, d: string)
    requires d in db.devices
    modifies db`devices
    ensures db.devices == MarkRemoved(old(db.devices), d)
  {
    db.devices := db.devices[d := db.devices[d].(status := DeviceRemoved, unbindCount := db.devices[d].unbindCount + 1)];
  }
}
