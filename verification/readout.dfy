/**
  The sensor screen: a heading and a value chosen by the captured menu name.
  Every render takes a fresh reading of all three sensors; the value is kept
  as the quantity it shows, before rendering with two decimal places.
 */
module Readout {

  import opened Options
  import opened Menu

  /** Three axes of the motion sensor (accelerometer or gyroscope). */
  datatype Axes = Axes(x: real, y: real, z: real)

  /** A light/proximity sample; the sensor gives both or neither. */
  datatype LightSample = LightSample(lux: real, proximity: int)

  /** One reading of all sensors: environment (temperature in C, pressure in Pa,
      relative humidity in %), an optional light/proximity sample, and motion. */
  datatype Reading = Reading(
    temperature: real, pressure: real, humidity: real,
    light: Option<LightSample>,
    accel: Axes, gyro: Axes)

  /** What the value line shows. */
  datatype Value =
    | Celsius(degrees: real)
    | Hectopascals(hpa: real)
    | Percent(percent: real)
    | Lux(lux: real)
    | Count(count: int)
    | NoData
    | ThreeAxes(axes: Axes)
    | Blank

  datatype Screen = Screen(heading: string, value: Value)

  /** Heading shown for a name that is not one of the sensors. */
  const Unavailable: string := "Sensor not available"

  /** Headings of the menu entries, in menu order. */
  const Headings: seq<string> :=
    ["Temperature:", "Pressure:", "Humidity:", "Ambient Light:", "Proximity:",
     "Orientation (Accel):", "Motion (Gyro):"]

  /** The screen shown for sensor `name` given reading `r`. */
  function DisplaySensor(name: string, r: Reading): (s: Screen)
    ensures s.heading == Unavailable <==> name !in Names
    ensures s.value == Blank <==> name !in Names
    ensures s.value == NoData <==> (name == "Light" || name == "Proximity") && r.light.None?
  {
    if name == "Temperature" then
      Screen("Temperature:", Celsius(r.temperature))
    else if name == "Pressure" then
      Screen("Pressure:", Hectopascals(r.pressure / 100.0))
    else if name == "Humidity" then
      Screen("Humidity:", Percent(r.humidity))
    else if name == "Light" then
      Screen("Ambient Light:", if r.light.Some? then Lux(r.light.value.lux) else NoData)
    else if name == "Proximity" then
      Screen("Proximity:", if r.light.Some? then Count(r.light.value.proximity) else NoData)
    else if name == "Orientation" then
      Screen("Orientation (Accel):", ThreeAxes(r.accel))
    else if name == "Motion" then
      Screen("Motion (Gyro):", ThreeAxes(r.gyro))
    else
      Screen(Unavailable, Blank)
  }

  /** Readings `r1` and `r2` agree on every quantity the screen for `name` shows. */
  predicate AgreeOn(name: string, r1: Reading, r2: Reading) {
    if name == "Temperature" then r1.temperature == r2.temperature
    else if name == "Pressure" then r1.pressure == r2.pressure
    else if name == "Humidity" then r1.humidity == r2.humidity
    else if name == "Light" then
      r1.light.Some? == r2.light.Some? && (r1.light.Some? ==> r1.light.value.lux == r2.light.value.lux)
    else if name == "Proximity" then
      r1.light.Some? == r2.light.Some? &&
      (r1.light.Some? ==> r1.light.value.proximity == r2.light.value.proximity)
    else if name == "Orientation" then r1.accel == r2.accel
    else if name == "Motion" then r1.gyro == r2.gyro
    else true
  }

  /** Each menu entry gets its own heading, whatever the reading. */
  lemma HeadingsFollowMenu(r: Reading)
    ensures |Headings| == ItemCount
    ensures forall i :: 0 <= i < ItemCount ==> DisplaySensor(Names[i], r).heading == Headings[i]
  {
  }

  /** Each sensor entry shows its own quantity in its own unit: temperature in
      degrees Celsius, pressure converted from pascals to hectopascals, humidity
      in percent, light in lux, proximity as a count, orientation as the
      accelerometer axes and motion as the gyroscope axes. */
  lemma ValuesFollowMenu(r: Reading)
    ensures DisplaySensor("Temperature", r).value == Celsius(r.temperature)
    ensures DisplaySensor("Pressure", r).value.Hectopascals?
    ensures DisplaySensor("Pressure", r).value.hpa * 100.0 == r.pressure
    ensures DisplaySensor("Humidity", r).value == Percent(r.humidity)
    ensures r.light.Some? ==> DisplaySensor("Light", r).value == Lux(r.light.value.lux)
    ensures r.light.Some? ==> DisplaySensor("Proximity", r).value == Count(r.light.value.proximity)
    ensures DisplaySensor("Orientation", r).value == ThreeAxes(r.accel)
    ensures DisplaySensor("Motion", r).value == ThreeAxes(r.gyro)
  {
  }

  /** The screen depends on the reading only through the quantity it shows:
      the heading never does, and a non-sensor name ignores the reading. */
  lemma ScreenReadsOnlyItsSensor(name: string, r1: Reading, r2: Reading)
    ensures DisplaySensor(name, r1).heading == DisplaySensor(name, r2).heading
    ensures AgreeOn(name, r1, r2) <==> DisplaySensor(name, r1) == DisplaySensor(name, r2)
  {
  }

  /** Worked cases: standard pressure shown in hectopascals, light without a sample. */
  lemma ReadoutExamples(r: Reading)
    ensures r.pressure == 101325.0 ==> DisplaySensor("Pressure", r).value == Hectopascals(1013.25)
    ensures r.light.None? ==> DisplaySensor("Light", r) == Screen("Ambient Light:", NoData)
    ensures r.light == Some(LightSample(12.34, 7)) ==> DisplaySensor("Light", r).value == Lux(12.34)
    ensures DisplaySensor("Sound", r) == Screen(Unavailable, Blank)
  {
  }

}
