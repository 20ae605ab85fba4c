# Verified model of the STM32WL55 MCUboot / FUOTA / sensor firmware core

This project models, in Dafny, three pieces of a Zephyr firmware repository for the
Nucleo WL55JC board:

- **The MCUboot slot checker** (`uart_boot`). At start-up the application decides whether
  the secondary slot holds a bootable image. It then:
  - confirms a test image;
  - analyses both slots by their MCUboot magic;
  - lists every flash area with id 0..10;
  - guesses the swap mechanism from a scratch area or from the slot sizes.

  The flash map is a `Flash.FlashDevice`. It has a fixed layout and records every
  `flash_area_open` call (`probes`) and the multiset of handles still open (`held`). That
  makes the order of opens and the one leaked handle part of each method's contract.
- **The FUOTA application with sensor telemetry** (`fuota_with_sensor_backup`). It covers:
  - the integer fixed-point conversions (Q31 to thousandths, `sensor_value` to
    thousandths, with C's truncating division and wrapping `int16_t` cast);
  - the 12-byte big-endian uplink frame, with a receiver-side `Decode` proved to be its
    exact inverse;
  - the `fuota_finished` callback;
  - the uplink loop's choice between the sensor frame, the "data send" fallback and
    silence;
  - the callback arriving between passes of the loop, where a successful upgrade
    request reboots the node and ends the run.

  The node's behaviour is the sequence of effects it issues (`Fuota.Effect`).
- **The sensor mock** (`sensors_test/tests_unit_mock`). This is the global `mock_state`
  record as a class, with:
  - its guarded getters;
  - the two out-parameter calls and the buffer-filling read;
  - the setters and the reset.

  Several scenarios from the mock test drivers are stated as methods whose contracts are
  the drivers' assertions.

Files:
- `basics.dfy`: Option and Result.
- `fixed_width.dfy`: C integer widths, C division, wrapping casts.
- `sensor_types.dfy`: `struct sensor_value` and the channel enum.
- `telemetry.dfy`: the conversions and the frame.
- `fuota.dfy`: the callback and the uplink loop.
- `flash.dfy`: the flash map.
- `uart_boot.dfy`: the slot checker.
- `mock_sensor.dfy`: the mock.

Choices the code makes that the model follows exactly:
- The conversions truncate toward zero and wrap on the `int16_t` cast. They do not round
  or saturate.
- The Q31 conversion divides by 2^31 and ignores the reading's `shift`.
- `check_swap_state` leaves the slot-1 handle open when slot 1 opens and slot 2 does not.
  The `&&` at uart_boot/src/main.c:52-53 skips the close in that case.
- `mock_sensor.c` answers false or -1 under its two flags. This holds even though
  `mock_sensor.h` calls `mock_device_is_ready` "always true" and
  `mock_sensor_sample_fetch` "always returns 0".

## Model

| member | source | states |
|---|---|---|
| FixedWidth.CDiv | fuota_with_sensor_backup/src/main.c:238-240 | C `/` truncates toward zero: for a non-negative dividend the quotient is the floor, for a negative one the ceiling |
| FixedWidth.WrapInt16 | fuota_with_sensor_backup/src/main.c:247-249 | the `(int16_t)` cast is congruent to its argument modulo 2^16 and is the identity on in-range values |
| FixedWidth.WrapInt16AfterWrapInt32 | fuota_with_sensor_backup/src/main.c:247-249 | wrapping the 32-bit `int` sum first never changes the final int16 value |
| Telemetry.Q31ToMilli | fuota_with_sensor_backup/src/main.c:238-240 | the result is the truncated quotient raw*1000/2^31 (characterised from both sides for each sign) and always lies in -1000..999 |
| Telemetry.AccelToMilli | fuota_with_sensor_backup/src/main.c:247-249 | the result is val1*1000 + val2/1000 (truncating) modulo 2^16, and exactly that value when it fits an int16 |
| Telemetry.AccelCastWraps | fuota_with_sensor_backup/src/main.c:247-249 | 40 m/s² aliases to -25536 and -40 to 25536: the cast wraps instead of saturating |
| Telemetry.AccelFractionTruncates | fuota_with_sensor_backup/src/main.c:247-249 | a fraction of -1500 micro-units contributes -1 thousandth |
| Telemetry.AccelFractionDropsMicros | fuota_with_sensor_backup/src/main.c:247-249 | 9.810999 becomes 9810 thousandths |
| Telemetry.HighByte | fuota_with_sensor_backup/src/main.c:269-280 | `(uint8_t)(v >> 8)` of any 16-bit field is the upper byte of its 16-bit two's-complement pattern |
| Telemetry.LowByte | fuota_with_sensor_backup/src/main.c:269-280 | `(uint8_t)(v & 0xFF)` keeps the low eight bits of v; for a 16-bit field it is the lower byte of its 16-bit pattern |
| Telemetry.Encode | fuota_with_sensor_backup/src/main.c:269-282 | a frame always encodes to exactly 12 bytes |
| Telemetry.Decode | fuota_with_sensor_backup/src/main.c:269-282 | the receiver refuses exactly the inputs that are not 12 bytes long and reports their length |
| Telemetry.FieldLayout | fuota_with_sensor_backup/src/main.c:269-282 | bytes 2i and 2i+1 are field i, high byte first; read with the field's signedness they give the field back, read unsigned its two's-complement pattern |
| Telemetry.UnsignedRoundTrip | fuota_with_sensor_backup/src/main.c:271-274 | high and low byte of a uint16 reassemble to it |
| Telemetry.SignedRoundTrip | fuota_with_sensor_backup/src/main.c:269-270 | `v >> 8` and `v & 0xFF` of a negative int16 reassemble to it as two's complement |
| Telemetry.BytesRoundTripUnsigned | fuota_with_sensor_backup/src/main.c:271-274 | every byte pair is the encoding of the uint16 it reads as |
| Telemetry.BytesRoundTripSigned | fuota_with_sensor_backup/src/main.c:269-270 | every byte pair is the encoding of the int16 it reads as |
| Telemetry.DecodeEncode | fuota_with_sensor_backup/src/main.c:269-282 | decoding an encoded frame gives back every field exactly |
| Telemetry.EncodeDecode | fuota_with_sensor_backup/src/main.c:269-282 | every 12-byte sequence is the encoding of the frame it decodes to |
| Telemetry.EncodeInjective | fuota_with_sensor_backup/src/main.c:269-282 | two different frames never produce the same payload |
| Telemetry.SensorFrameBytes | fuota_with_sensor_backup/src/main.c:247-280 | bytes 6..11 of the packed frame are the three accelerometer axes converted by `AccelToMilli`, high byte first; bytes 0..5 are the three environment fields |
| Telemetry.PackSensorPayload | fuota_with_sensor_backup/src/main.c:247-284 | converts the three axes as lines 247-249 do and writes the frame of the environment fields and those axes into payload[0..11]; leaves the rest of the buffer alone and returns 12 |
| Telemetry.ExampleFrame | fuota_with_sensor_backup/src/main.c:269-282 | 24.43 °C, 38.68 %, 1013.4 with accelerations 0.010, -0.005, 9.810 give `09 8B 0F 1C 27 96 00 0A FF FB 26 52` |
| Fuota.FinishedEffects | fuota_with_sensor_backup/src/main.c:302-320 | a permanent upgrade is requested first; a reboot happens iff the request returned 0, as the last effect, cold, right after a 100 ms sleep; on failure nothing follows the request |
| Fuota.Node.FuotaFinished | fuota_with_sensor_backup/src/main.c:302-320 | the callback appends exactly `FinishedEffects` of what this call's `boot_request_upgrade` returned, and reports the reboot (after which control never returns) iff the request returned 0 |
| Fuota.CycleUplink | fuota_with_sensor_backup/src/main.c:400-466 | every uplink is unconfirmed on port 2; a 12-byte frame is sent iff both sensors exist and both reads returned 0, and it decodes to the environment fields and the three axes in thousandths; a missing sensor sends "data send"; both present with a failed read sends nothing |
| Fuota.SentAccelBytes | fuota_with_sensor_backup/src/main.c:436-443 | when both sensors are present and both reads succeed, bytes 6..11 of the uplink are the ADXL345 sample in thousandths, high byte first |
| Fuota.Node.Cycle | fuota_with_sensor_backup/src/main.c:400-469 | one loop pass appends its uplink (if any) and then the 2 s delay |
| Fuota.Node.UplinkLoop | fuota_with_sensor_backup/src/main.c:398-470 | n passes append the effects of each pass in order |
| Fuota.LoopOnlySendsAndSleeps | fuota_with_sensor_backup/src/main.c:398-470 | the uplink loop only sends unconfirmed port-2 uplinks and sleeps; it never reboots or requests an upgrade |
| Fuota.LoopSleepsOncePerCycle | fuota_with_sensor_backup/src/main.c:469 | each pass sleeps exactly once, whether or not it sends |
| Fuota.StepRebootsIffStops | fuota_with_sensor_backup/src/main.c:302-320 | a loop pass never reboots; the callback reboots iff the upgrade request returned 0 |
| Fuota.NothingAfterReboot | fuota_with_sensor_backup/src/main.c:394-470 | with the callback arriving between passes at any points, a reboot is always the last effect of the run |
| Fuota.RebootsIff | fuota_with_sensor_backup/src/main.c:302-320 | each callback makes its own upgrade request; the node reboots iff some callback's request returns 0, whatever the earlier ones returned |
| Fuota.RetryAfterFailedRequest | fuota_with_sensor_backup/src/main.c:302-320 | a failed request returns to the loop, the next pass runs, and a later successful request reboots the node |
| Fuota.StepThenRest | fuota_with_sensor_backup/src/main.c:311-320 | after one step's effects the run is over if it rebooted, and otherwise continues with the next step |
| Fuota.LoopEffectsCons | fuota_with_sensor_backup/src/main.c:400-470 | the passes of the loop can be taken from the front: the first pass, then the rest |
| Fuota.RunOfPassesIsLoop | fuota_with_sensor_backup/src/main.c:400-470 | a run in which no transfer completes has exactly the effects of the uplink loop over the same passes |
| Fuota.Node.RunStep | fuota_with_sensor_backup/src/main.c:302-320 | one step (a pass, or the callback with its own request result) appends its effects and stops the run exactly when it rebooted |
| Fuota.Node.Run | fuota_with_sensor_backup/src/main.c:394-470 | the loop with the callback interleaved appends exactly `RunEffects`: each step in order, up to and including the reboot |
| Flash.IdsLength | uart_boot/src/main.c:208 | the id range lo..hi-1 has hi-lo elements |
| Flash.IdsAt | uart_boot/src/main.c:208 | element k of the id range is lo+k |
| UartBoot.HasImageMagic | uart_boot/src/main.c:119-120 | the byte test 3D B8 F3 96 (repeated at lines 158-159 and 169-170) holds iff the first word read little-endian is 0x96F3B83D |
| UartBoot.VerdictIffMagicBytes | uart_boot/src/main.c:115-123 | a slot is reported as holding an image iff it opens, the header read succeeds and bytes 0..3 are 3D B8 F3 96 |
| UartBoot.VerdictIgnoresTail | uart_boot/src/main.c:156-159 | bytes 4..31 of the 32-byte header read never affect the verdict |
| UartBoot.InaccessibleSlotHasNoImage | uart_boot/src/main.c:149-175 | a slot whose open or read fails is reported empty |
| UartBoot.ReadHeaderAndClose | uart_boot/src/main.c:156-161 | reading an open slot's header, testing it and closing gives the slot verdict for that read length, makes no open call and releases exactly that handle |
| UartBoot.ProbeSlot | uart_boot/src/main.c:155-161 | returns the slot verdict, opens only that id, and closes what it opened |
| UartBoot.BootStore.WriteImgConfirmed | uart_boot/src/main.c:139 | counts one confirm write; the image becomes confirmed unless the write fails |
| UartBoot.ConfirmOrInspect | uart_boot/src/main.c:105-141 | a confirmed image probes slot 2 with a 4-byte read and can boot secondary iff that slot has the magic; an unconfirmed one writes the confirmation once and never probes |
| UartBoot.Classify | uart_boot/src/main.c:187-203 | "both slots" iff both have images, "no secondary" iff the secondary slot (id 2) is empty, "unusual" iff only the secondary slot (id 2) has an image |
| UartBoot.AnalyzeSlots | uart_boot/src/main.c:147-175 | opens 1 then 2, returns both 32-byte verdicts, leaves no handle open |
| UartBoot.InventoryExact | uart_boot/src/main.c:206-215 | the inventory lists every openable id in the range, exactly once, with its size and offset, and nothing else |
| UartBoot.Inventory | uart_boot/src/main.c:206-215 | the loop opens ids 0..10 in order, returns `InventoryOf(layout, 0, 11)` and closes every handle it opened |
| UartBoot.FirstOpenable | uart_boot/src/main.c:36-45 | the result is the smallest id in range that opens, or None when none does |
| UartBoot.FirstOpenableDependsOnlyOnRange | uart_boot/src/main.c:36-45 | the scratch search depends on nothing but which candidate ids open |
| UartBoot.ScratchTakesPrecedence | uart_boot/src/main.c:36-47 | once a scratch id opens, the verdict is scratch-based with the first such id, whatever the slots are |
| UartBoot.SwapWithoutScratch | uart_boot/src/main.c:47-68 | without a scratch area: move-based iff both slots open with equal sizes, unknown iff both open with unequal sizes, not configured iff either fails to open |
| UartBoot.FindScratch | uart_boot/src/main.c:32-45 | tries 3, 4, 5 in order, stops at the first that opens, closes it, and reports whether one was found |
| UartBoot.InferFromSlotSizes | uart_boot/src/main.c:51-68 | opens slot 2 only if slot 1 opened, compares sizes, and leaves slot 1 open exactly when slot 2 fails |
| UartBoot.CheckSwapState | uart_boot/src/main.c:28-69 | the verdict is `DetectSwap`, the opens are `SwapProbes`, and the only handle left open is slot 1 in the `SwapLeaks` case |
| UartBoot.BootMain | uart_boot/src/main.c:97-219 | the whole start-up sequence produces `ExpectedReport`, writes the confirmation once iff the image was unconfirmed, makes the opens of `BootProbes` in order, and leaks only the `check_swap_state` handle |
| UartBoot.ReportSlotsFromMagicOnly | uart_boot/src/main.c:105-175 | each of the three slot verdicts of the report holds iff that slot is accessible and its bytes 0..3 are the magic |
| MockSensor.DeviceName | sensors_test/tests_unit_mock/unit/mock_sensor.c:40-48 | the two instances' names contain "bme280" and "adxl345" |
| MockSensor.AxisReading | sensors_test/tests_unit_mock/unit/mock_sensor.c:99-114 | the ADXL345 reports a value for exactly the three acceleration channels |
| MockSensor.Mock.constructor | sensors_test/tests_unit_mock/unit/mock_sensor.c:14-36 | the initial state: both flags false, ADXL (-5, -1, 16), BME (25, 101325, 52) |
| MockSensor.Mock.Bme280GetDevice | sensors_test/tests_unit_mock/unit/mock_sensor.c:52-58 | NULL iff the not-found flag is set, the BME280 instance otherwise |
| MockSensor.Mock.Adxl345GetDevice | sensors_test/tests_unit_mock/unit/mock_sensor.c:60-66 | NULL iff the not-found flag is set, the ADXL345 instance otherwise |
| MockSensor.Mock.DeviceIsReady | sensors_test/tests_unit_mock/unit/mock_sensor.c:68-74 | ready iff the device is non-NULL and the not-found flag is clear |
| MockSensor.Mock.SampleFetch | sensors_test/tests_unit_mock/unit/mock_sensor.c:78-87 | -1 iff the failure flag is set or the device is NULL, 0 otherwise; no state changes |
| MockSensor.Mock.ChannelGet | sensors_test/tests_unit_mock/unit/mock_sensor.c:89-121 | -1 iff the flag is set, a pointer is NULL, or the ADXL345 is asked for a non-acceleration channel; an ADXL345 success writes the stored axis and a zero fraction; otherwise `val` is untouched |
| MockSensor.Mock.Read | sensors_test/tests_unit_mock/unit/mock_sensor.c:123-138 | -1 iff the flag is set, a pointer is NULL or fewer than 4 bytes are asked for, with the buffer untouched; otherwise all `bufSize` bytes become 0xAA |
| MockSensor.Mock.GetDecoder | sensors_test/tests_unit_mock/unit/mock_sensor.c:140-154 | -1 iff the flag is set or a pointer is NULL, with the slot untouched; otherwise the slot holds the dummy decoder |
| MockSensor.Mock.Adxl345SetValues | sensors_test/tests_unit_mock/unit/mock_sensor.c:158-163 | replaces the three axes and nothing else |
| MockSensor.Mock.Bme280SetValues | sensors_test/tests_unit_mock/unit/mock_sensor.c:165-170 | replaces the three environment readings and nothing else |
| MockSensor.Mock.DeviceSetNotFound | sensors_test/tests_unit_mock/unit/mock_sensor.c:172-175 | sets the not-found flag and nothing else |
| MockSensor.Mock.SensorSetReadFailure | sensors_test/tests_unit_mock/unit/mock_sensor.c:177-180 | sets the failure flag and nothing else |
| MockSensor.Mock.ResetAll | sensors_test/tests_unit_mock/unit/mock_sensor.c:182-192 | restores exactly the static initial state, whatever came before |
| MockSensor.ResetIdempotent | sensors_test/tests_unit_mock/unit/mock_sensor.c:182-192 | resetting twice leaves the initial state, the same as resetting once |
| MockSensor.CustomValuesScenario | sensors_test/tests_unit_mock/unit/test_adxl345_mock.c:209-235 | after setting (10, -15, 18) the three channels read back exactly those values, and the reset restores the defaults |
| MockSensor.FetchFailureScenario | sensors_test/tests_unit_mock/unit/test_adxl345_mock.c:240-258 | with the failure flag set, an ADXL345 fetch returns -1, and clearing the flag restores the previous state |
| MockSensor.ReadFailureScenario | sensors_test/tests_unit_mock/unit/test_bme280_mock.c:117-136 | with the failure flag set, a BME280 read returns -1 and leaves the buffer untouched, and clearing the flag restores the previous state |
| MockSensor.NotFoundScenario | sensors_test/tests_unit_mock/unit/test_adxl345_mock.c:46-61 | the not-found flag hides both devices; clearing it makes both available and ready again |

## Left out

- The flash map is an abstract `Flash.Layout`. It says which ids open, which reads fail, and each area's offset and contents. An area's size is the length of its contents. Zephyr's `flash_area_*` implementation is not part of this model. A read that ends past the area's size is modelled as a failure.
- `boot_is_img_confirmed` and `boot_write_img_confirmed` are a `BootStore` whose write may fail (`writeFails`). The application ignores the write's result, and so does the model.
- All `printk` and `LOG_*` output is left out. Where a printout reports a decision, the decision is the method's result: `BootReport`, `SwapMechanism` and the inventory list. This covers the compile-time `CONFIG_BOOT_SWAP_*` printouts and the "next steps" text of `check_swap_state`.
- The LED blink loop of `uart_boot` and its GPIO set-up are left out. They are hardware I/O with no decision in them.
- The float branch of `pack_sensor_payload` is left out. It is floating-point conversion on one side of an unresolved merge conflict.
- The three environment fields of the frame (`Telemetry.EnvFields`) are inputs of the packing step. The merged text packs `temp_x100`, `hum_x100` and `press_x10`, which only the float branch computes; the integer branch computes `temp_x1000`, `hum_x1000` and `press_x1000` instead. `Q31ToMilli` models those on its own. The three acceleration fields have the same names in both branches, so the model packs the integer branch's `accel_*_1000` (`AccelToMilli`) into bytes 6..11.
- Sensor acquisition is an input of each loop pass (`Fuota.CycleInput`): `init_bme280`, `init_adxl345`, `read_bme280_data`, `read_adxl345_data` and the Zephyr sensor API they call. Sensor presence is decided once, before the loop, as in `main`.
- LoRaWAN start-up, join, ADR, clock sync, the transfer of fragments itself and the downlink and data-rate callbacks are left out. Only the completion of a transfer is modelled, as a `Fuota.Step`. They are calls into the LoRaWAN stack with no decision the core makes beyond returning on error.
- Fuota.Node.Run: `fuota_finished` runs on the LoRaWAN stack's thread. The model places it between passes of the loop, where the loop spends nearly all its time in the 2 s delay. An interleaving inside a pass is not modelled, for example between a send and the delay, or between `boot_request_upgrade` and `sys_reboot`. The reboot does not return, and it ends the run.
- Fuota.Node.UplinkLoop: this is the loop with no transfer completing (`Fuota.RunOfPassesIsLoop`). The source loop never ends. The model runs it over a finite sequence of passes, so it states every finite prefix of the behaviour.
- Fuota.Node.LorawanSend: the result of `lorawan_send` is only logged, so the model does not return it.
- `k_sleep` and `k_msleep` are `Sleep` effects. Real time is not modelled.
- In the mock, `sensor_channel_t` is the six-value enum of `mock_sensor.h`. An out-of-range integer passed as a channel is not modelled.
- The mock is a heap object rather than a process-wide static, so aliasing between test files is not modelled.
- The test drivers' printing and pass/fail counting are left out. The range assertions they make on the default values are not stated either.
