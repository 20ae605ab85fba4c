/**
 * The mocked sensor layer used by the host-side unit tests: one global record of two
 * failure flags and six stored readings, two static device instances, guarded getters,
 * setters and a reset.
 */
module MockSensor {
  import opened Basics
  import opened FixedWidth
  import opened SensorTypes

  /** A `struct device *` the layer can be handed: one of its two instances, or another one. */
  datatype DeviceRef = Bme280Device | Adxl345Device | OtherDevice(name: string)

  /** The `name` field of a device instance. */
  function DeviceName(d: DeviceRef): (n: string)
    ensures d == Bme280Device ==> "bme280" <= n
    ensures d == Adxl345Device ==> "adxl345" <= n
  {
    match d
    case Bme280Device => "bme280@77"
    case Adxl345Device => "adxl345@53"
    case OtherDevice(name) => name
  }

  datatype Accel = Accel(x: int32, y: int32, z: int32)
  datatype Environment = Environment(temp: int32, pressure: int32, humidity: int32)

  /** The whole of `mock_state`. */
  datatype MockState = MockState(deviceNotFound: bool, readFailure: bool, adxl345: Accel, bme280: Environment)

  /** The static initialiser of `mock_state`, which `mock_sensor_reset_all` restores. */
  const INITIAL: MockState := MockState(false, false, Accel(-5, -1, 16), Environment(25, 101325, 52))

  /** The stored axis an ADXL345 channel reports, or None for a channel the ADXL345 does not have. */
  function AxisReading(a: Accel, chan: Channel): (r: Option<int32>)
    ensures r.Some? <==> chan in {AccelX, AccelY, AccelZ}
  {
    match chan
    case AccelX => Some(a.x)
    case AccelY => Some(a.y)
    case AccelZ => Some(a.z)
    case _ => None
  }

  /** The `struct sensor_value` a caller hands to `mock_sensor_channel_get`. */
  class SensorValueCell {
    var val1: int32
    var val2: int32

    constructor (val1: int32, val2: int32)
      ensures this.val1 == val1 && this.val2 == val2
    {
      this.val1, this.val2 := val1, val2;
    }
  }

  /** A `struct sensor_decoder_api`; the mock's one has a NULL `decode`. */
  datatype DecoderApi = DecoderApi(hasDecode: bool)
  const DUMMY_DECODER: DecoderApi := DecoderApi(false)

  /** The `const struct sensor_decoder_api *` variable the caller passes by address. */
  class DecoderSlot {
    var decoder: Option<DecoderApi>

    constructor ()
      ensures decoder == None
    {
      decoder := None;
    }
  }

  class Mock {
    var deviceNotFound: bool
    var readFailure: bool
    var adxl345: Accel
    var bme280: Environment

    function State(): MockState
      reads this
    {
      MockState(deviceNotFound, readFailure, adxl345, bme280)
    }

    constructor ()
      ensures State() == INITIAL
    {
      deviceNotFound, readFailure := false, false;
      adxl345 := Accel(-5, -1, 16);
      bme280 := Environment(25, 101325, 52);
    }

    /** `mock_bme280_get_device`: NULL exactly when the device is configured as not found. */
    function Bme280GetDevice(): (d: Option<DeviceRef>)
      reads this
      ensures d.None? <==> deviceNotFound
      ensures d.Some? ==> d.value == Bme280Device
    {
      if deviceNotFound then None else Some(Bme280Device)
    }

    /** `mock_adxl345_get_device`: NULL exactly when the device is configured as not found. */
    function Adxl345GetDevice(): (d: Option<DeviceRef>)
      reads this
      ensures d.None? <==> deviceNotFound
      ensures d.Some? ==> d.value == Adxl345Device
    {
      if deviceNotFound then None else Some(Adxl345Device)
    }

    /** `mock_device_is_ready`: false for NULL or when devices are not found, true otherwise. */
    function DeviceIsReady(dev: Option<DeviceRef>): (ready: bool)
      reads this
      ensures ready <==> dev.Some? && !deviceNotFound
      ensures ready ==> Bme280GetDevice().Some? && Adxl345GetDevice().Some?
    {
      if dev.None? then false else !deviceNotFound
    }

    /** `mock_sensor_sample_fetch`: -1 on the failure flag or a NULL device, else 0; no state changes. */
    function SampleFetch(dev: Option<DeviceRef>): (rc: int)
      reads this
      ensures rc == 0 || rc == -1
      ensures rc == -1 <==> readFailure || dev.None?
    {
      if readFailure then -1
      else if dev.None? then -1
      else 0
    }

    /**
     * `mock_sensor_channel_get`. The ADXL345 instance reports the stored axis with a zero
     * fraction and rejects other channels; any other device succeeds without writing `val`.
     */
    method ChannelGet(dev: Option<DeviceRef>, chan: Channel, val: SensorValueCell?) returns (rc: int)
      modifies val
      ensures rc == 0 || rc == -1
      ensures rc == -1 <==>
                readFailure || dev.None? || val == null ||
                (dev == Some(Adxl345Device) && AxisReading(adxl345, chan).None?)
      ensures rc == 0 && dev == Some(Adxl345Device) ==>
                val != null && val.val1 == AxisReading(adxl345, chan).value && val.val2 == 0
      ensures !(rc == 0 && dev == Some(Adxl345Device)) && val != null ==>
                val.val1 == old(val.val1) && val.val2 == old(val.val2)
    {
      if readFailure || dev.None? || val == null {
        return -1;
      }
      if dev.value == Adxl345Device {
        match chan {
          case AccelX =>
            val.val1 := adxl345.x;
            val.val2 := 0;
          case AccelY =>
            val.val1 := adxl345.y;
            val.val2 := 0;
          case AccelZ =>
            val.val1 := adxl345.z;
            val.val2 := 0;
          case _ =>
            return -1;
        }
      } else if dev.value == Bme280Device {
        return 0;
      }
      return 0;
    }

    /**
     * `mock_sensor_read`. The caller's buffer holds at least `bufSize` bytes. On the
     * failure flag, a NULL argument or fewer than 4 bytes it fails and writes nothing;
     * otherwise every one of the `bufSize` bytes becomes 0xAA.
     */
    method Read(dev: Option<DeviceRef>, buffer: array?<uint8>, bufSize: nat) returns (rc: int)
      requires buffer != null ==> bufSize <= buffer.Length
      modifies buffer
      ensures rc == 0 || rc == -1
      ensures rc == -1 <==> readFailure || dev.None? || buffer == null || bufSize < 4
      ensures rc == -1 && buffer != null ==> buffer[..] == old(buffer[..])
      ensures rc == 0 ==> buffer != null
      ensures rc == 0 && buffer != null ==> forall i | 0 <= i < bufSize :: buffer[i] == 0xAA
      ensures rc == 0 && buffer != null ==> buffer[bufSize..] == old(buffer[bufSize..])
    {
      if readFailure || dev.None? || buffer == null {
        return -1;
      }
      if bufSize < 4 {
        return -1;
      }
      forall i | 0 <= i < bufSize {
        buffer[i] := 0xAA;
      }
      return 0;
    }

    /** `mock_sensor_get_decoder`: hands out the dummy decoder unless the flag or a NULL argument forbids it. */
    method GetDecoder(dev: Option<DeviceRef>, slot: DecoderSlot?) returns (rc: int)
      modifies slot
      ensures rc == 0 || rc == -1
      ensures rc == -1 <==> readFailure || dev.None? || slot == null
      ensures rc == 0 ==> slot != null && slot.decoder == Some(DUMMY_DECODER)
      ensures rc == -1 && slot != null ==> slot.decoder == old(slot.decoder)
    {
      if readFailure || dev.None? || slot == null {
        return -1;
      }
      slot.decoder := Some(DUMMY_DECODER);
      return 0;
    }

    /** `mock_adxl345_set_values`: replaces the three axes and nothing else. */
    method Adxl345SetValues(x: int32, y: int32, z: int32)
      modifies this
      ensures State() == old(State()).(adxl345 := Accel(x, y, z))
    {
      adxl345 := Accel(x, y, z);
    }

    /** `mock_bme280_set_values`: replaces the three environment readings and nothing else. */
    method Bme280SetValues(temp: int32, pressure: int32, humidity: int32)
      modifies this
      ensures State() == old(State()).(bme280 := Environment(temp, pressure, humidity))
    {
      bme280 := Environment(temp, pressure, humidity);
    }

    /** `mock_device_set_not_found`: sets that flag and nothing else. */
    method DeviceSetNotFound(notFound: bool)
      modifies this
      ensures State() == old(State()).(deviceNotFound := notFound)
    {
      deviceNotFound := notFound;
    }

    /** `mock_sensor_set_read_failure`: sets that flag and nothing else. */
    method SensorSetReadFailure(failure: bool)
      modifies this
      ensures State() == old(State()).(readFailure := failure)
    {
      readFailure := failure;
    }

    /** `mock_sensor_reset_all`: back to the static initialiser, whatever came before. */
    method ResetAll()
      modifies this
      ensures State() == INITIAL
    {
      deviceNotFound := false;
      readFailure := false;
      adxl345 := Accel(-5, -1, 16);
      bme280 := Environment(25, 101325, 52);
    }
  }

  // ------------------------------------------------- the test drivers' scenarios

  /** Custom ADXL345 values are reported back exactly, and the reset restores the defaults. */
  method CustomValuesScenario(m: Mock) returns (x: int32, y: int32, z: int32)
    requires !m.deviceNotFound && !m.readFailure
    modifies m
    ensures (x, y, z) == (10, -15, 18)
    ensures m.State() == INITIAL
  {
    var dev := m.Adxl345GetDevice();
    m.Adxl345SetValues(10, -15, 18);
    var xVal := new SensorValueCell(0, 0);
    var yVal := new SensorValueCell(0, 0);
    var zVal := new SensorValueCell(0, 0);
    var rc := m.ChannelGet(dev, AccelX, xVal);
    rc := m.ChannelGet(dev, AccelY, yVal);
    rc := m.ChannelGet(dev, AccelZ, zVal);
    x, y, z := xVal.val1, yVal.val1, zVal.val1;
    m.ResetAll();
  }

  /** With the failure flag set, a fetch from the ADXL345 fails; clearing it restores the old state. */
  method FetchFailureScenario(m: Mock) returns (fetchRc: int)
    requires !m.deviceNotFound && !m.readFailure
    modifies m
    ensures fetchRc == -1
    ensures m.State() == old(m.State())
  {
    var dev := m.Adxl345GetDevice();
    m.SensorSetReadFailure(true);
    fetchRc := m.SampleFetch(dev);
    m.SensorSetReadFailure(false);
  }

  /** With the failure flag set, a BME280 read fails and writes nothing; clearing it restores the old state. */
  method ReadFailureScenario(m: Mock, buffer: array<uint8>) returns (readRc: int)
    requires !m.deviceNotFound && !m.readFailure
    modifies m, buffer
    ensures readRc == -1
    ensures buffer[..] == old(buffer[..])
    ensures m.State() == old(m.State())
  {
    var dev := m.Bme280GetDevice();
    m.SensorSetReadFailure(true);
    readRc := m.Read(dev, buffer, buffer.Length);
    m.SensorSetReadFailure(false);
  }

  /** The not-found flag hides both devices; clearing it brings both back, ready. */
  method NotFoundScenario(m: Mock) returns (hidden: bool, readyAfter: bool)
    requires !m.deviceNotFound
    modifies m
    ensures hidden && readyAfter
    ensures m.State() == old(m.State())
  {
    m.DeviceSetNotFound(true);
    hidden := m.Bme280GetDevice().None? && m.Adxl345GetDevice().None?;
    m.DeviceSetNotFound(false);
    readyAfter := m.DeviceIsReady(m.Bme280GetDevice()) && m.DeviceIsReady(m.Adxl345GetDevice());
  }

  /** Resetting twice leaves the same state as resetting once. */
  method ResetIdempotent(m: Mock)
    modifies m
    ensures m.State() == INITIAL
  {
    m.ResetAll();
    ghost var once := m.State();
    m.ResetAll();
    assert m.State() == once;
  }
}
