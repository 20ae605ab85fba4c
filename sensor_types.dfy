/** The sensor API types shared by the firmware and the mock: `struct sensor_value` and the channels. */
module SensorTypes {
  import opened FixedWidth

  /** A reading as an integer part and a fractional part in millionths. */
  datatype SensorValue = SensorValue(val1: int32, val2: int32)

  /** `struct sensor_value accel[3]`: the x, y and z axes of one accelerometer sample. */
  datatype AccelSample = AccelSample(x: SensorValue, y: SensorValue, z: SensorValue)

  /** `sensor_channel_t`, values 0..5 in declaration order. */
  datatype Channel = AmbientTemp | Press | Humidity | AccelX | AccelY | AccelZ
}
