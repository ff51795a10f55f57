/** Board vitals of the Raspberry Pi (watchdogs/hw_info.py). Each reader takes
    what its external call produced: the decoded output of a `vcgencmd`
    command (`None` when the command failed), or the state of a sysfs file.
    Every failure the source catches becomes `None`; no reader fails. */
module HwInfo {
  import opened Wrappers
  import opened Text
  import opened Numerals
  import opened Rounding

  /** Hertz per gigahertz. */
  const GHZ_TO_NO: nat := 1_000_000_000

  /** A sysfs file as `os.path.exists` and `open(...).read()` see it. */
  datatype SysFile = Missing | Unreadable | Readable(text: string)

  /** The fan entry of the hardware record. */
  datatype Fan = Fan(speed: Option<int>, pwm: Option<int>)

  /** The record `get_hardware_info` returns: one field per dict key. */
  datatype HardwareInfo = HardwareInfo(
    temperature: Option<Decimal>,
    voltage: Option<Decimal>,
    clock: Option<Decimal>,
    fan: Fan)

  /** The raw inputs of one `get_hardware_info` call. */
  datatype BoardProbe = BoardProbe(
    measureTemp: Option<string>,
    measureVolts: Option<string>,
    measureClockArm: Option<string>,
    fanSpeedFile: SysFile,
    fanPwmFile: SysFile)

  /** `t.split('=')[1].split(unit)[0]`: the text after the first `=`, up to
      the next `=` or `unit`; `None` where indexing `[1]` raises, which is
      exactly when `t` has no `=`. */
  function ValueField(t: string, unit: char): (r: Option<string>)
    ensures r.None? <==> '=' !in t
    ensures r.Some? ==> '=' !in r.value && unit !in r.value
  {
    var fields := Split(t, '=');
    SplitHasSecond(t, '=');
    if |fields| < 2 then None
    else
      SplitKeepsAbsent(fields[1], unit, '=');
      Some(Split(fields[1], unit)[0])
  }

  /** `t.split('=')[-1]`: the text after the last `=`, or all of `t`. */
  function LastField(t: string): (r: string)
    ensures '=' !in r
    ensures '=' !in t ==> r == t
  {
    var fields := Split(t, '=');
    assert '=' !in t ==> fields == [t] by { if '=' !in t { SplitNoSep(t, '='); } }
    fields[|fields| - 1]
  }

  /** `get_temperature()`: `float(out.strip().split('=')[1].split("'")[0])`,
      `None` when the command failed or any step raised. */
  function Temperature(output: Option<string>): (r: Option<Decimal>)
    ensures output.None? ==> r.None?
    ensures output.Some? && '=' !in Strip(output.value) ==> r.None?
  {
    match output
    case None => None
    case Some(text) =>
      match ValueField(Strip(text), '\'')
      case None => None
      case Some(v) => ParseFloat(v)
  }

  /** `get_cpu_voltage(decimal)`:
      `round(float(out.strip().split('=')[1].split('V')[0]), decimal)`. */
  function CpuVoltage(output: Option<string>, decimal: nat): (r: Option<Decimal>)
    ensures output.None? ==> r.None?
    ensures output.Some? && '=' !in Strip(output.value) ==> r.None?
    ensures r.Some? ==> r.value.scale == decimal
  {
    match output
    case None => None
    case Some(text) =>
      match ValueField(Strip(text), 'V')
      case None => None
      case Some(v) =>
        match ParseFloat(v)
        case None => None
        case Some(volts) => Some(Round(volts.units, Pow10(volts.scale), decimal))
  }

  /** `get_clock_frequency(decimal)`:
      `round(int(out.strip().split('=')[-1]) / GHZ_TO_NO, decimal)`. */
  function ClockFrequency(output: Option<string>, decimal: nat): (r: Option<Decimal>)
    ensures output.None? ==> r.None?
    ensures r.Some? ==> r.value.scale == decimal
  {
    match output
    case None => None
    case Some(text) =>
      match ParseInt(LastField(Strip(text)))
      case None => None
      case Some(hz) => Some(Round(hz, GHZ_TO_NO, decimal))
  }

  /** `get_fan_speed()`: `int(open(path).read().strip())` when the file
      exists, `None` otherwise or when reading or conversion fails. */
  function FanSpeed(file: SysFile): (r: Option<int>)
    ensures !file.Readable? ==> r.None?
    ensures file.Readable? ==> r == ParseInt(Strip(file.text))
    ensures file.Readable? ==> (r.Some? <==> IsIntLiteral(Strip(file.text)))
  {
    match file
    case Missing => None
    case Unreadable => None
    case Readable(text) =>
      StrippedIntLiteral(text);
      ParseInt(Strip(text))
  }

  /** `get_fan_pwm()`: the same read on the PWM file. The value is returned
      as read; nothing restricts it to the 0..255 duty-cycle range. */
  function FanPwm(file: SysFile): (r: Option<int>)
    ensures !file.Readable? ==> r.None?
    ensures file.Readable? ==> r == ParseInt(Strip(file.text))
    ensures file.Readable? ==> (r.Some? <==> IsIntLiteral(Strip(file.text)))
  {
    match file
    case Missing => None
    case Unreadable => None
    case Readable(text) =>
      StrippedIntLiteral(text);
      ParseInt(Strip(text))
  }

  /** `get_hardware_info()`: every reader runs, each with its own failure
      isolation, and the record always has all its fields. Each field is its
      own reader's result, and carries a value only if its source answered. */
  function GetHardwareInfo(probe: BoardProbe): (info: HardwareInfo)
    ensures info.temperature == Temperature(probe.measureTemp)
    ensures info.voltage == CpuVoltage(probe.measureVolts, 2)
    ensures info.clock == ClockFrequency(probe.measureClockArm, 2)
    ensures info.fan == Fan(FanSpeed(probe.fanSpeedFile), FanPwm(probe.fanPwmFile))
    ensures info.temperature.Some? ==> probe.measureTemp.Some?
    ensures info.voltage.Some? ==> probe.measureVolts.Some? && info.voltage.value.scale == 2
    ensures info.clock.Some? ==> probe.measureClockArm.Some? && info.clock.value.scale == 2
    ensures info.fan.speed.Some? ==> probe.fanSpeedFile.Readable?
    ensures info.fan.pwm.Some? ==> probe.fanPwmFile.Readable?
  {
    HardwareInfo(
      Temperature(probe.measureTemp),
      CpuVoltage(probe.measureVolts, 2),
      ClockFrequency(probe.measureClockArm, 2),
      Fan(FanSpeed(probe.fanSpeedFile), FanPwm(probe.fanPwmFile)))
  }

  /** In a `key=value<unit>rest` reading the field is `value`, whatever
      `rest` holds. */
  lemma {:induction false} ValueFieldOfReading(key: string, value: string, unit: char, rest: string)
    requires unit != '='
    requires '=' !in key && '=' !in value && unit !in value
    ensures ValueField(key + "=" + value + [unit] + rest, unit) == Some(value)
  {
    var tail := value + [unit] + rest;
    assert key + "=" + value + [unit] + rest == key + ['='] + tail;
    SplitAfterKey(key, '=', tail);
    assert '=' !in value + [unit];
    SplitFirstPrefix(value + [unit], '=', rest);
    SplitFirstPiece(value, unit, Split(rest, '=')[0]);
  }

  /** In a `key=value=rest` reading without the unit the field stops at the
      second `=`: it is `value`, whatever `rest` holds. */
  lemma {:induction false} ValueFieldBeforeNextKey(key: string, value: string, unit: char, rest: string)
    requires '=' !in key && '=' !in value && unit !in value
    ensures ValueField(key + "=" + value + "=" + rest, unit) == Some(value)
  {
    var tail := value + ['='] + rest;
    assert key + "=" + value + "=" + rest == key + ['='] + tail;
    SplitAfterKey(key, '=', tail);
    SplitFirstPiece(value, '=', rest);
    SplitNoSep(value, unit);
  }

  /** In a `key=value` reading with no unit the field is `value`. */
  lemma {:induction false} ValueFieldNoUnit(key: string, value: string, unit: char)
    requires '=' !in key && '=' !in value && unit !in value
    ensures ValueField(key + "=" + value, unit) == Some(value)
  {
    assert key + "=" + value == key + ['='] + value;
    SplitAfterKey(key, '=', value);
    SplitNoSep(value, '=');
    SplitNoSep(value, unit);
  }

  /** The clock field is the text after the last `=`. */
  lemma {:induction false} LastFieldOfReading(head: string, value: string)
    requires '=' !in value
    ensures LastField(head + "=" + value) == value
  {
    assert head + "=" + value == head + ['='] + value;
    SplitLastPiece(head, '=', value);
  }

  /** A `key=value'unit` reading yields the float of `value`. */
  lemma {:induction false} TemperatureReading(output: string, key: string, value: string, unit: string)
    requires Strip(output) == key + "=" + value + "'" + unit
    requires '=' !in key && '=' !in value && '\'' !in value
    ensures Temperature(Some(output)) == ParseFloat(value)
  {
    assert key + "=" + value + "'" + unit == key + "=" + value + ['\''] + unit;
    ValueFieldOfReading(key, value, '\'', unit);
  }

  /** A `key=valueVunit` reading yields the float of `value` rounded to
      `decimal` places: a nearest such number to the exact value. */
  lemma {:induction false} VoltageReading(output: string, key: string, value: string, unit: string, decimal: nat)
    requires Strip(output) == key + "=" + value + "V" + unit
    requires '=' !in key && '=' !in value && 'V' !in value
    ensures ParseFloat(value).None? ==> CpuVoltage(Some(output), decimal).None?
    ensures ParseFloat(value).Some? ==>
              var v := ParseFloat(value).value;
              && CpuVoltage(Some(output), decimal).Some?
              && IsNearest(v.units * Pow10(decimal), Pow10(v.scale),
                           CpuVoltage(Some(output), decimal).value.units)
  {
    assert key + "=" + value + "V" + unit == key + "=" + value + ['V'] + unit;
    ValueFieldOfReading(key, value, 'V', unit);
  }

  /** The clock reads the text after the LAST `=`, whatever precedes it. */
  lemma {:induction false} ClockReading(output: string, head: string, value: string, decimal: nat)
    requires Strip(output) == head + "=" + value
    requires '=' !in value
    ensures ParseInt(value).None? ==> ClockFrequency(Some(output), decimal).None?
    ensures ParseInt(value).Some? ==>
              ClockFrequency(Some(output), decimal)
                == Some(Round(ParseInt(value).value, GHZ_TO_NO, decimal))
  {
    LastFieldOfReading(head, value);
  }

  /** Output with no `=` at all is read whole as an integer number of hertz,
      so a bare number still parses. */
  lemma {:induction false} ClockWithoutKey(output: string, decimal: nat)
    requires '=' !in Strip(output)
    ensures !IsIntLiteral(Strip(output)) ==> ClockFrequency(Some(output), decimal).None?
    ensures ParseInt(Strip(output)).Some? ==>
              ClockFrequency(Some(output), decimal)
                == Some(Round(ParseInt(Strip(output)).value, GHZ_TO_NO, decimal))
  {
    assert LastField(Strip(output)) == Strip(output);
    StrippedIntLiteral(output);
  }

  /** The GHz figure is the nearest number with `decimal` digits to
      `hz / 10^9`, and exactly `hz / 10^9` when that has few enough digits. */
  lemma {:induction false} ClockInGigahertz(hz: int, decimal: nat)
    ensures IsNearest(hz * Pow10(decimal), GHZ_TO_NO, Round(hz, GHZ_TO_NO, decimal).units)
    ensures (hz * Pow10(decimal)) % GHZ_TO_NO == 0 ==>
              Round(hz, GHZ_TO_NO, decimal).units == hz * Pow10(decimal) / GHZ_TO_NO
  {
    if (hz * Pow10(decimal)) % GHZ_TO_NO == 0 {
      RoundExact(hz, GHZ_TO_NO, decimal);
    }
  }

  /** Any integer written in the PWM file comes back unchanged, including
      values outside 0..255 and negative ones. */
  lemma {:induction false} FanPwmUnclamped(text: string, n: int)
    requires Strip(text) == FormatInt(n)
    ensures FanPwm(Readable(text)) == Some(n)
  {
    ParseFormatInt(n);
  }

  /** The fan speed file is read the same way: any integer, as written. */
  lemma {:induction false} FanSpeedReading(text: string, n: int)
    requires Strip(text) == FormatInt(n)
    ensures FanSpeed(Readable(text)) == Some(n)
  {
    ParseFormatInt(n);
  }

  /** Each field of the hardware record is determined by its own source
      alone: a failing source never disturbs another field. */
  lemma {:induction false} HardwareIsolation(p: BoardProbe, q: BoardProbe)
    ensures p.measureTemp == q.measureTemp ==>
              GetHardwareInfo(p).temperature == GetHardwareInfo(q).temperature
    ensures p.measureVolts == q.measureVolts ==>
              GetHardwareInfo(p).voltage == GetHardwareInfo(q).voltage
    ensures p.measureClockArm == q.measureClockArm ==>
              GetHardwareInfo(p).clock == GetHardwareInfo(q).clock
    ensures p.fanSpeedFile == q.fanSpeedFile ==>
              GetHardwareInfo(p).fan.speed == GetHardwareInfo(q).fan.speed
    ensures p.fanPwmFile == q.fanPwmFile ==>
              GetHardwareInfo(p).fan.pwm == GetHardwareInfo(q).fan.pwm
  {
  }

  lemma {:induction false} ParseFloatExample()
    ensures ParseFloat("42.8") == Some(Decimal(428, 1))
  {
    assert FormatDecimal(Decimal(428, 1)) == "42.8";
    ParseFormatDecimal(Decimal(428, 1));
  }

  /** Output that strips to `temp=42.8'C` reads as 42.8 degrees. */
  lemma {:induction false} TemperatureExample(output: string)
    requires Strip(output) == "temp=42.8'C"
    ensures Temperature(Some(output)) == Some(Decimal(428, 1))
  {
    TemperatureLayout();
    TemperatureReading(output, "temp", "42.8", "C");
    ParseFloatExample();
  }

  /** `temp=42.8'C` is the key `temp`, the value `42.8` and the unit `C`. */
  lemma {:induction false} TemperatureLayout()
    ensures "temp=42.8'C" == "temp" + "=" + "42.8" + "'" + "C"
    ensures '=' !in "temp" && '=' !in "42.8" && '\'' !in "42.8"
  {
  }

  lemma {:induction false} ParseIntExample()
    ensures ParseInt("1500000000") == Some(1500000000)
  {
    assert FormatNat(1) == "1";
    assert FormatNat(15) == "15";
    assert FormatNat(150) == "150";
    assert FormatNat(1500) == "1500";
    assert FormatNat(15000) == "15000";
    assert FormatNat(150000) == "150000";
    assert FormatNat(1500000) == "1500000";
    assert FormatNat(15000000) == "15000000";
    assert FormatNat(150000000) == "150000000";
    assert FormatInt(1500000000) == "1500000000";
    ParseFormatInt(1500000000);
  }

  lemma {:induction false} GigahertzExample()
    ensures Round(1500000000, GHZ_TO_NO, 2) == Decimal(150, 2)
  {
    assert Pow10(2) == 100;
    RoundExact(1500000000, GHZ_TO_NO, 2);
  }

  /** Output that strips to `frequency(48)=1500000000` reads as 1.50 GHz. */
  lemma {:induction false} ClockExample(output: string)
    requires Strip(output) == "frequency(48)=1500000000"
    ensures ClockFrequency(Some(output), 2) == Some(Decimal(150, 2))
  {
    ClockLayout();
    ClockReading(output, "frequency(48)", "1500000000", 2);
    ParseIntExample();
    GigahertzExample();
  }

  /** `frequency(48)=1500000000` is the head `frequency(48)` and the value
      `1500000000`. */
  lemma {:induction false} ClockLayout()
    ensures "frequency(48)=1500000000" == "frequency(48)" + "=" + "1500000000"
    ensures '=' !in "1500000000"
  {
  }
}
