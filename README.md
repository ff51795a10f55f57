# piman telemetry core in Dafny

piman polls a Raspberry Pi for telemetry. This project models its core in
Dafny and proves properties of the model:

- the board-vitals readers of `watchdogs/hw_info.py`. These parse
  `vcgencmd` output and sysfs fan files into temperature, voltage, clock
  frequency and fan figures, and `get_hardware_info` assembles them.
- the operating-system readers of `os_info.py`. These convert memory and
  network byte counts to GiB and MiB, sum thread counts, count processes,
  compute the uptime, and `get_system_info` assembles them.
- the configuration constants of `config.py` (lines 8-36). This covers
  choosing the dotenv file, loading it, and resolving every constant from
  its environment variable.

All three files are modelled as pure functions over values. Every external
call is a parameter of the model:

- a `vcgencmd` output is an `Option<string>` (`None` when the command or
  its decoding failed).
- a sysfs file is `Missing`, `Unreadable` or `Readable(text)`.
- each psutil result is an `Option` of the counts it returns.
- the environment is a `map<string, string>`.

Numbers parsed from text are exact fixed-point values,
`Decimal(units, scale)`, with value `units / 10^scale`. They are parsed by a
restricted decimal grammar:

- optional surrounding whitespace: the characters `str.isspace()` accepts,
  except the information separators U+001C..U+001F. `str.strip()` removes
  those four, but `int()` and `float()` reject text that holds one;
- an optional sign;
- ASCII digits;
- for floats, at most one `.`.

`round(x, n)` is modelled exactly as half-to-even rounding of the rational
`x`.

The model is organised in these modules:

- `Wrappers`: `Option` and `Result`.
- `Text`: `str.strip()` and `str.split(sep)`, with their laws.
- `Numerals`: `int()` and `float()`, and the canonical renderings they
  invert.
- `Rounding`: `round`.
- `HwInfo`, `OsInfo` and `Config`: one module per core file.

Points where the code decides a question its comments leave open:

- A process whose thread count cannot be read voids the whole thread
  count (`os_info.py:53-56`). The sum is not continued past it.
- `split('=')[1]` is the text between the first and the second `=`, not
  everything after the first `=`.
- The fan files are stripped before `int()` (`watchdogs/hw_info.py:63,77`),
  so a separator U+001C..U+001F around the number is harmless there.
  Configuration values reach `int()` unstripped (`config.py:22-27`), so
  such a character anywhere in them is an error. The clock output is
  stripped as a whole before it is split (`watchdogs/hw_info.py:52`), so
  only a separator between the last `=` and the digits reaches `int()`.
- The PWM reader's doc comment gives the range 0-255
  (`watchdogs/hw_info.py:73`), but the code returns whatever integer the
  file holds, unclamped.

## Model

| member | source | states |
|---|---|---|
| Text.Strip | watchdogs/hw_info.py:33 | the result of `strip()` has no whitespace at either end and is no longer than the input; all-whitespace text strips to the empty string |
| Text.StripIdempotent | watchdogs/hw_info.py:63 | stripping twice is stripping once |
| Text.StripPadded | watchdogs/hw_info.py:33 | any whitespace around a trimmed reading is removed, and only that |
| Text.Split | watchdogs/hw_info.py:33 | `split(sep)` gives at least one piece, and no piece holds the separator |
| Text.JoinSplit | watchdogs/hw_info.py:33 | joining the pieces with the separator gives back the text |
| Text.SplitJoin | watchdogs/hw_info.py:33 | splitting a join of separator-free pieces gives back the pieces |
| Text.SplitConcat | watchdogs/hw_info.py:33 | the pieces of `a + sep + b` are the pieces of `a` followed by those of `b` |
| Text.SplitHasSecond | watchdogs/hw_info.py:33-36 | indexing `split(sep)[1]` succeeds exactly when the separator occurs |
| Numerals.ParseInt | watchdogs/hw_info.py:52 | `int(text)` succeeds exactly when the text holds no separator U+001C..U+001F and the stripped text is a signed or unsigned run of digits; its value is the one the literal denotes (`LiteralValue`, so `+5` and `007` read as 5 and 7) |
| Numerals.ParseFormatInt | watchdogs/hw_info.py:63 | `int(str(n)) == n` for every integer |
| Numerals.ParseIntStripped | watchdogs/hw_info.py:52 | for text without a separator U+001C..U+001F, stripping it first does not change what `int()` reads |
| Numerals.StrippedIntLiteral | watchdogs/hw_info.py:63 | `int(text.strip())` succeeds exactly when the stripped text is an integer literal |
| Numerals.InfoSeparatorNotSkipped | watchdogs/hw_info.py:52 | `int("\x1c5")` fails, while `int("\x1c5".strip())` is 5 |
| Numerals.UnsignedDecimalGrammar | watchdogs/hw_info.py:33 | the split-based parse of an unsigned body succeeds exactly when the body is digits with at most one `.` and at least one digit; its value is those digits read as one number, scaled by the count after the `.` |
| Numerals.ParseFloatLiteral | watchdogs/hw_info.py:33 | a stripped text parses exactly when it is such a body with an optional sign, to the signed value of the body |
| Numerals.ParseFloat | watchdogs/hw_info.py:33 | `float(text)` succeeds exactly when the text holds no separator U+001C..U+001F and strips to a float literal, and its value is the exact value of that literal |
| Numerals.ParseFormatDecimal | watchdogs/hw_info.py:33 | `float` of the canonical rendering of a decimal gives back its value and its number of fraction digits |
| Numerals.ParseFloatOfIntLiteral | watchdogs/hw_info.py:42 | text that `int()` accepts reads as the same value under `float()` |
| Rounding.RoundHalfEven | os_info.py:41-43 | the integer returned is `num / den` rounded to the nearest integer, ties to even |
| Rounding.RoundHalfEvenUnique | os_info.py:41-43 | at most one integer is the half-to-even rounding of `num / den` |
| Rounding.RoundHalfEvenIsNearest | os_info.py:41-43 | the half-to-even rounding is within half a unit of the quotient |
| Rounding.RoundHalfEvenExact | os_info.py:41-43 | an exact quotient is returned unchanged |
| Rounding.Round | os_info.py:88 | `round(num / den, decimal)` has `decimal` fraction digits and is within half a last-place unit of the exact quotient |
| Rounding.RoundExact | watchdogs/hw_info.py:53 | when the scaled quotient is exact, `round` returns it exactly |
| HwInfo.ValueField | watchdogs/hw_info.py:33 | `split('=')[1].split(unit)[0]` fails exactly when there is no `=`; the field holds neither `=` nor the unit |
| HwInfo.LastField | watchdogs/hw_info.py:52 | `split('=')[-1]` holds no `=`, and output with no `=` is returned whole |
| HwInfo.Temperature | watchdogs/hw_info.py:29-36 | `None` when the command failed or its stripped output has no `=` |
| HwInfo.CpuVoltage | watchdogs/hw_info.py:38-45 | `None` when the command failed or its stripped output has no `=`; a voltage has `decimal` fraction digits |
| HwInfo.ClockFrequency | watchdogs/hw_info.py:47-56 | `None` when the command failed; a frequency has `decimal` fraction digits |
| HwInfo.FanSpeed | watchdogs/hw_info.py:58-70 | `None` without a read when the file is missing, `None` when reading it fails; otherwise `int()` of the file's stripped text, present exactly when that text is an integer literal |
| HwInfo.FanPwm | watchdogs/hw_info.py:72-84 | `None` without a read when the file is missing, `None` when reading it fails; otherwise `int()` of the file's stripped text, present exactly when that text is an integer literal |
| HwInfo.GetHardwareInfo | watchdogs/hw_info.py:87-98 | each field of the record is its own reader's result on its own source (voltage and clock with 2 decimals), and carries a value only if that source answered |
| HwInfo.ValueFieldOfReading | watchdogs/hw_info.py:33 | in `key=value<unit>rest` the field is exactly `value`, whatever `rest` holds |
| HwInfo.ValueFieldBeforeNextKey | watchdogs/hw_info.py:33 | in `key=value=rest` without the unit the field stops at the second `=`: it is exactly `value` |
| HwInfo.ValueFieldNoUnit | watchdogs/hw_info.py:42 | in `key=value` with no unit the field is the whole `value` |
| HwInfo.LastFieldOfReading | watchdogs/hw_info.py:52 | the clock field is the text after the last `=` |
| HwInfo.TemperatureReading | watchdogs/hw_info.py:33 | the temperature is the float of the text between the first `=` and the next `'` |
| HwInfo.VoltageReading | watchdogs/hw_info.py:42 | the voltage is the float between the first `=` and the next `V`, rounded to the nearest `decimal`-digit value; it is `None` when that text is not a float |
| HwInfo.ClockReading | watchdogs/hw_info.py:52-53 | the clock is the integer after the last `=` divided by 10^9 and rounded; it is `None` when that text is not an integer |
| HwInfo.ClockWithoutKey | watchdogs/hw_info.py:52 | output with no `=` is read whole: the clock is `None` unless the stripped output is an integer literal, and is then that many hertz in GHz |
| HwInfo.ClockInGigahertz | watchdogs/hw_info.py:53 | the GHz value is the nearest `decimal`-digit value to hz / 10^9, and exactly that quotient when it has few enough digits |
| HwInfo.FanPwmUnclamped | watchdogs/hw_info.py:72-78 | any integer in the PWM file, outside 0..255 too, is returned unchanged |
| HwInfo.FanSpeedReading | watchdogs/hw_info.py:60-64 | any integer in the fan speed file is returned as written |
| HwInfo.HardwareIsolation | watchdogs/hw_info.py:87-98 | each field of the hardware record depends on its own source alone |
| HwInfo.ParseFloatExample | watchdogs/hw_info.py:33 | `float("42.8")` is 42.8 |
| HwInfo.TemperatureExample | watchdogs/hw_info.py:33 | output stripping to `temp=42.8'C` reads as 42.8 |
| HwInfo.ParseIntExample | watchdogs/hw_info.py:52 | `int("1500000000")` is 1500000000 |
| HwInfo.GigahertzExample | watchdogs/hw_info.py:53 | 1500000000 Hz rounds to 1.50 GHz |
| HwInfo.ClockExample | watchdogs/hw_info.py:52-53 | output stripping to `frequency(48)=1500000000` reads as 1.50 GHz |
| OsInfo.GetRamInfo | os_info.py:36-48 | all three figures are `None` together on failure; otherwise each is bytes / 1024^3 rounded half-to-even to `decimal` digits |
| OsInfo.SumThreads | os_info.py:53 | the left-to-right sum is defined exactly when every count is known, and then equals the running total plus the reference sum `Total` |
| OsInfo.GetActiveThreads | os_info.py:50-56 | the thread count is present exactly when the enumeration and every process succeeded, and is then the total of all counts |
| OsInfo.GetTotalProcess | os_info.py:58-64 | the process count is the length of the PID list, or `None` exactly when the listing failed |
| OsInfo.GetNetworkInfo | os_info.py:66-78 | all three fields are `None` when either psutil call failed; otherwise send and receive are bytes / 1024^2 rounded half-to-even, and connection is the count |
| OsInfo.GetUptime | os_info.py:80-91 | present exactly when the boot time was read; then (now - boot) / 3600 to the nearest `decimal`-digit value |
| OsInfo.GetSystemInfo | os_info.py:93-104 | each of the six fields is its own reader's result with 2 decimals on its own source, present exactly when that source answered; cpu is passed through |
| OsInfo.OneFailedProcessVoidsThreads | os_info.py:53-56 | one process whose thread count fails makes the whole count `None` |
| OsInfo.TotalBoundsEach | os_info.py:53 | the thread total is at least each process's count |
| OsInfo.WholeUnitsExact | os_info.py:41-43 | a whole number of GiB or MiB converts exactly, with zero fraction digits |
| OsInfo.RamExample | os_info.py:41-43 | 1073741824 bytes read as 1.00 GiB |
| OsInfo.NetworkExample | os_info.py:71-73 | 2097152 bytes read as 2.00 MiB |
| OsInfo.SystemIsolation | os_info.py:96-104 | each field of the system record depends on its own source alone |
| Config.SelectEnvFile | config.py:8-13 | `.env` is chosen when it exists, `.env.defaults` only when `.env` does not, and none when neither exists |
| Config.LoadDotenv | config.py:15-16 | loading a dotenv file keeps every variable the process has and adds only those it lacks |
| Config.OverlayUnique | config.py:16 | the loaded environment is fully determined by the process environment and the file |
| Config.Environment | config.py:8-18 | the selected file is overlaid on the process environment, and the environment is unchanged when there is none |
| Config.GetenvOr | config.py:34-36 | `getenv(name) or default` is the value only when it is set and non-empty |
| Config.GetenvDefault | config.py:28-29 | `getenv(name, default)` keeps a set but empty value; it differs from `getenv(name) or default` exactly on an empty value with a non-empty default |
| Config.BoolOr | config.py:21 | `bool(getenv(name) or default)` is true for every non-empty value, whatever it spells |
| Config.IntSetting | config.py:22 | `int(getenv(name) or default)` fails exactly when the value is set, non-empty and not an integer; otherwise it is the default or the parsed value |
| Config.ResolveInts | config.py:22-27 | the integer constants resolve exactly when each is unset, empty or an integer, to the default or the parsed value; a failure names the first variable, in source order, whose value `int()` rejects |
| Config.Resolve | config.py:21-36 | the constants are those of the rules above: IS_RUNNING and PUBLISH_INFO agree, LOGGING_ENABLED is always true, the fan paths keep empty values, and the log paths fall back on empty values |
| Config.InternalDefaults | config.py:17-36 | with no variables and no dotenv file, every constant takes its internal default |
| Config.FalseSpellsTrue | config.py:21-26 | `IS_RUNNING=False` turns both IS_RUNNING and PUBLISH_INFO on |

## Left out

- get_cpu_usage (`os_info.py:28-34`) blocks for a one-second psutil sample.
  Its value is an input passed through to `OsInfo.GetSystemInfo`.
- The calls to psutil, `subprocess.check_output`, `os.path.exists`, `open`
  and `time.time` are not modelled. They are parameters of the model.
- A failure to decode `vcgencmd` output is folded into a `None` output.
- Numerals.ParseFloat accepts only the restricted grammar above, not all
  of Python's float syntax.
  - It rejects underscores, exponents, `inf` and `nan`, and non-ASCII
    digits, all of which Python accepts.
  - Values are exact decimals, not IEEE doubles.
- Numerals.ParseInt rejects underscores and non-ASCII digits, which Python
  accepts.
- Numerals.ParseInt has no length limit. Python 3.11 and later raise
  `ValueError` on a literal of more than 4300 digits, where the model
  returns the number.
- Numerals.ParseIntStripped holds only for text without the separators
  U+001C..U+001F: `int()` rejects such text, but not once it is stripped
  (`Numerals.InfoSeparatorNotSkipped`).
- HwInfo.Temperature returns the exact decimal written in the output.
  Python returns the nearest double to it, or `inf` for a literal beyond
  the double range.
- HwInfo.CpuVoltage rounds the exact decimal, and its contract states only
  "a nearest value". Python rounds the nearest double, so the two can
  differ on inputs within a double's error of a tie.
- HwInfo.ClockFrequency rounds hz / 10^9 exactly, and its contract states
  only "a nearest value". Python rounds the correctly rounded double of
  hz / 10^9, so ties can differ.
- HwInfo.ClockFrequency returns a value for every integer. In Python
  `frequency_in_hz / GHZ_TO_NO` raises `OverflowError` when the quotient
  exceeds the double range (hz above about 1.8 * 10^317, still below the
  4300-digit limit of `int()`), and the reader then returns `None`.
- OsInfo.GetUptime works on whole seconds, and its contract states only
  "a nearest value". `psutil.boot_time()` and `time.time()` are floats in
  Python.
- The `decimal` argument is a natural number in the model. A negative
  `decimal`, which Python rounds to tens or hundreds, is not modelled.
- The GiB and MiB conversions equal Python's only while the byte counts
  are below 2^53, where `bytes / 2^k` is an exact double.
- Config.Resolve keeps the fan file paths as strings. `Path()`
  normalisation, such as `Path("")` becoming `.`, is not modelled.
- Config.LoadDotenv takes the dotenv file as the variables it assigns.
  Parsing of the file and variable interpolation are not modelled.
- Every reader logs its caught exception with `logging.error`
  (`watchdogs/hw_info.py:35,44,55,66,69,80,83`;
  `os_info.py:33,47,55,63,77,90`). Logging is output only and is not
  modelled.
- The notice printed when no dotenv file is found (`config.py:18`) is not
  modelled.
- The log-directory and log-file creation loop (`config.py:38-52`) is
  filesystem I/O and is not modelled.
- The module-level logging set-up and the `__main__` polling loops are not
  modelled.
- ac_info.py, watchdogs/ac_lgpio.py and main.py are not part of this
  model. They cover GPIO hardware access and the top-level poll loop.
