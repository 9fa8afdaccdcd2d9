/** The versioned structures the dispatchers hand to modules, and the
    navigation source they are read from. A structure starts zeroed, as
    `struct X state {}` does, and is filled in field by field. */
module Snapshots {
  import opened Hooks

  newtype uint8 = x: int | 0 <= x < 0x100
  newtype uint64 = x: int | 0 <= x < 0x1_0000_0000_0000_0000

  /** A single-precision value. The dispatchers only copy these, except for
      the altitude, which they scale. */
  type Float = real

  /** The per-type structure versions host and module must agree on. */
  const AHRS_STATE_VERSION: nat := 1
  const GYRO_SAMPLE_VERSION: nat := 1
  const ACCEL_SAMPLE_VERSION: nat := 1

  datatype Vec3 = Vec3(x: Float, y: Float, z: Float)
  const ZERO_VEC3: Vec3 := Vec3(0.0, 0.0, 0.0)

  datatype Quaternion = Quaternion(q0: Float, q1: Float, q2: Float, q3: Float)

  /** A navigation fix: latitude and longitude in 1e-7 degrees, altitude in
      centimetres. */
  datatype Location = Location(lat: int, lng: int, alt: int)

  /** What the navigation source reports when a dispatcher asks it.
      attitude is the quaternion of its body-to-NED rotation matrix; an
      accessor that can fail is an Option. */
  datatype NavSource = NavSource(
    initialised: bool,
    healthy: bool,
    attitude: Quaternion,
    roll: Float, pitch: Float, yaw: Float,
    origin: Option<Location>,
    position: Option<Location>,
    relativePositionNed: Option<Vec3>,
    gyro: Vec3,
    accelEf: Vec3)

  datatype AhrsStatus = Initialising | Unhealthy | Healthy

  datatype Origin = Origin(initialised: bool, latitude: int, longitude: int, altitude: Float)
  datatype Position = Position(available: bool, latitude: int, longitude: int, altitude: Float)

  /** AHRS_state. */
  datatype AhrsState = AhrsState(
    structureVersion: nat,
    timeUs: uint64,
    status: AhrsStatus,
    quat: Quaternion,
    eulers: Vec3,
    origin: Origin,
    position: Position,
    relativePosition: Vec3,
    gyroRate: Vec3,
    accelEf: Vec3)

  /** gyro_sample. */
  datatype GyroSampleState = GyroSampleState(structureVersion: nat, timeUs: uint64, instance: uint8, deltaTime: Float, gyro: Vec3)

  /** accel_sample. */
  datatype AccelSampleState = AccelSampleState(structureVersion: nat, timeUs: uint64, instance: uint8, deltaTime: Float, accel: Vec3)

  /** The zero-initialised AHRS_state. */
  const ZERO_AHRS_STATE: AhrsState := AhrsState(
    0, 0, Initialising, Quaternion(0.0, 0.0, 0.0, 0.0), ZERO_VEC3,
    Origin(false, 0, 0, 0.0), Position(false, 0, 0, 0.0), ZERO_VEC3, ZERO_VEC3, ZERO_VEC3)

  /** loc.alt * 0.01: centimetres to metres. */
  function Metres(altCm: int): (m: Float)
    ensures m * 100.0 == altCm as real
  {
    altCm as real / 100.0
  }

  /** The AHRS status: the readiness flag decides first, health only after. */
  function StatusOf(initialised: bool, healthy: bool): (s: AhrsStatus)
    ensures s == Initialising <==> !initialised
    ensures s == Healthy <==> initialised && healthy
    ensures s == Unhealthy <==> initialised && !healthy
  {
    if !initialised then Initialising
    else if healthy then Healthy
    else Unhealthy
  }

  /** Everything an AHRS snapshot taken at time now promises about the
      source it was read from. The euler angles are the source's cached
      ones, not recomputed from the quaternion, and all three lanes of the
      earth-frame acceleration hold its x component. */
  ghost predicate DescribesSource(st: AhrsState, src: NavSource, now: uint64)
  {
    && st.structureVersion == AHRS_STATE_VERSION
    && st.timeUs == now
    && (st.status == Initialising <==> !src.initialised)
    && (st.status == Healthy <==> src.initialised && src.healthy)
    && (st.status == Unhealthy <==> src.initialised && !src.healthy)
    && st.quat == src.attitude
    && st.eulers == Vec3(src.roll, src.pitch, src.yaw)
    && (st.origin.initialised <==> src.origin.Some?)
    && (src.origin.Some? ==>
          st.origin.latitude == src.origin.value.lat && st.origin.longitude == src.origin.value.lng &&
          st.origin.altitude * 100.0 == src.origin.value.alt as real)
    && (src.origin.None? ==> st.origin.latitude == 0 && st.origin.longitude == 0 && st.origin.altitude == 0.0)
    && (st.position.available <==> src.position.Some?)
    && (src.position.Some? ==>
          st.position.latitude == src.position.value.lat && st.position.longitude == src.position.value.lng &&
          st.position.altitude * 100.0 == src.position.value.alt as real)
    && (src.position.None? ==> st.position.latitude == 0 && st.position.longitude == 0 && st.position.altitude == 0.0)
    && (src.relativePositionNed.Some? ==> st.relativePosition == src.relativePositionNed.value)
    && (src.relativePositionNed.None? ==> st.relativePosition == ZERO_VEC3)
    && st.gyroRate == src.gyro
    && st.accelEf.x == src.accelEf.x && st.accelEf.y == src.accelEf.x && st.accelEf.z == src.accelEf.x
  }

  /** The source and the time fix the snapshot completely. */
  lemma DescribesSourceUnique(a: AhrsState, b: AhrsState, src: NavSource, now: uint64)
    requires DescribesSource(a, src, now) && DescribesSource(b, src, now)
    ensures a == b
  {
  }

  /** Fills in AHRS_state from the source, field by field. */
  method BuildAhrsState(src: NavSource, now: uint64) returns (st: AhrsState)
    ensures DescribesSource(st, src, now)
  {
    st := ZERO_AHRS_STATE;
    st := st.(structureVersion := AHRS_STATE_VERSION, timeUs := now);
    st := st.(status := StatusOf(src.initialised, src.healthy));
    st := st.(quat := src.attitude);
    st := st.(eulers := Vec3(src.roll, src.pitch, src.yaw));
    if src.origin.Some? {
      var loc := src.origin.value;
      st := st.(origin := Origin(true, loc.lat, loc.lng, Metres(loc.alt)));
    }
    if src.position.Some? {
      var loc := src.position.value;
      st := st.(position := Position(true, loc.lat, loc.lng, Metres(loc.alt)));
    }
    if src.relativePositionNed.Some? {
      var pos := src.relativePositionNed.value;
      st := st.(relativePosition := Vec3(pos.x, pos.y, pos.z));
    }
    st := st.(gyroRate := Vec3(src.gyro.x, src.gyro.y, src.gyro.z));
    st := st.(accelEf := Vec3(src.accelEf.x, src.accelEf.x, src.accelEf.x));
  }

  /** Fills in gyro_sample. */
  method BuildGyroSample(now: uint64, instance: uint8, dt: Float, gyro: Vec3) returns (st: GyroSampleState)
    ensures st.structureVersion == GYRO_SAMPLE_VERSION && st.timeUs == now
    ensures st.instance == instance && st.deltaTime == dt && st.gyro == gyro
  {
    st := GyroSampleState(0, 0, 0, 0.0, ZERO_VEC3);
    st := st.(structureVersion := GYRO_SAMPLE_VERSION, timeUs := now);
    st := st.(instance := instance, deltaTime := dt);
    st := st.(gyro := Vec3(gyro.x, gyro.y, gyro.z));
  }

  /** Fills in accel_sample. */
  method BuildAccelSample(now: uint64, instance: uint8, dt: Float, accel: Vec3) returns (st: AccelSampleState)
    ensures st.structureVersion == ACCEL_SAMPLE_VERSION && st.timeUs == now
    ensures st.instance == instance && st.deltaTime == dt && st.accel == accel
  {
    st := AccelSampleState(0, 0, 0, 0.0, ZERO_VEC3);
    st := st.(structureVersion := ACCEL_SAMPLE_VERSION, timeUs := now);
    st := st.(instance := instance, deltaTime := dt);
    st := st.(accel := Vec3(accel.x, accel.y, accel.z));
  }
}
