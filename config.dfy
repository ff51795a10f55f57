/** Resolution of the module constants of config.py from the environment.
    The environment is a map from variable names to values; a name absent
    from the map is unset. */
module Config {
  import opened Wrappers
  import opened Numerals

  type Env = map<string, string>

  const DOTENV_PATH: string := ".env"
  const DEFAULTS_PATH: string := ".env.defaults"

  const DEFAULT_FAN_SPEED_FILE: string := "/sys/devices/platform/cooling_fan/hwmon/hwmon2/fan1_input"
  const DEFAULT_FAN_PWM_FILE: string := "/sys/devices/platform/cooling_fan/hwmon/hwmon2/pwm1"
  const DEFAULT_LOG_FILE_AC_INFO: string := "piman/ac_info.log"
  const DEFAULT_LOG_FILE_OS_INFO: string := "piman/os_info.log"
  const DEFAULT_LOG_FILE_HW_INFO: string := "piman/hw_info.log"

  /** What the process found at start-up: its own environment, whether each
      dotenv file exists, and the variables each file assigns. */
  datatype Startup = Startup(
    process: Env,
    dotenvExists: bool,
    dotenvVars: Env,
    defaultsExists: bool,
    defaultsVars: Env)

  /** The configuration constants, one field per module constant. */
  datatype Settings = Settings(
    isRunning: bool,
    startDelay: int,
    snoozeTime: int,
    acSignalPin: int,
    fetchInterval: int,
    publishInfo: bool,
    publishInterval: int,
    fanSpeedFile: string,
    fanPwmFile: string,
    loggingEnabled: bool,
    logFileAcInfo: string,
    logFileOsInfo: string,
    logFileHwInfo: string)

  /** `int()` raised `ValueError` on the value of the named variable, which
      aborts the import of the module. */
  datatype ConfigError = InvalidInt(name: string, text: string)

  /** The dotenv file to load: `.env` when it exists, else `.env.defaults`
      when that exists, else none. */
  function SelectEnvFile(dotenvExists: bool, defaultsExists: bool): (path: Option<string>)
    ensures path == Some(DOTENV_PATH) <==> dotenvExists
    ensures path == Some(DEFAULTS_PATH) <==> !dotenvExists && defaultsExists
    ensures path.None? <==> !dotenvExists && !defaultsExists
  {
    if dotenvExists then Some(DOTENV_PATH)
    else if defaultsExists then Some(DEFAULTS_PATH)
    else None
  }

  /** `env` is `process` with the variables of a dotenv file added under
      `load_dotenv`'s default `override=False`: the file adds the variables
      the process does not already have and changes none it has. */
  predicate Overlay(env: Env, process: Env, fileVars: Env) {
    && (forall name :: name in process ==> name in env && env[name] == process[name])
    && (forall name :: name in fileVars && name !in process ==> name in env && env[name] == fileVars[name])
    && (forall name :: name in env ==> name in process || name in fileVars)
  }

  /** `load_dotenv(path)` once the file is read into its variables. */
  function LoadDotenv(process: Env, fileVars: Env): (env: Env)
    ensures Overlay(env, process, fileVars)
  {
    fileVars + process
  }

  /** The overlay is fully determined by the process environment and the
      file, so `LoadDotenv` is the only function meeting its contract. */
  lemma {:induction false} OverlayUnique(e1: Env, e2: Env, process: Env, fileVars: Env)
    requires Overlay(e1, process, fileVars) && Overlay(e2, process, fileVars)
    ensures e1 == e2
  {
    assert e1.Keys == e2.Keys;
    forall name | name in e1
      ensures e1[name] == e2[name]
    {
      if name !in process {
        assert name in fileVars;
      }
    }
  }

  /** The environment once the selected dotenv file, if any, is loaded
      (lines 8-16 of config.py): `.env` wins over `.env.defaults`, and
      neither overrides what the process already has. */
  function Environment(s: Startup): (env: Env)
    ensures s.dotenvExists ==> Overlay(env, s.process, s.dotenvVars)
    ensures !s.dotenvExists && s.defaultsExists ==> Overlay(env, s.process, s.defaultsVars)
    ensures !s.dotenvExists && !s.defaultsExists ==> env == s.process
  {
    match SelectEnvFile(s.dotenvExists, s.defaultsExists)
    case None => s.process
    case Some(path) => LoadDotenv(s.process, if path == DOTENV_PATH then s.dotenvVars else s.defaultsVars)
  }

  /** The variable is set to a non-empty string: the only case in which
      `os.getenv(name) or default` does not fall back to the default. */
  predicate IsFilled(env: Env, name: string) {
    name in env && env[name] != ""
  }

  /** `os.getenv(name) or default` for a string default. */
  function GetenvOr(env: Env, name: string, default: string): (value: string)
    ensures IsFilled(env, name) ==> value == env[name]
    ensures !IsFilled(env, name) ==> value == default
  {
    if IsFilled(env, name) then env[name] else default
  }

  /** `os.getenv(name, default)`: the default applies only to an unset
      variable; an empty value is kept. */
  function GetenvDefault(env: Env, name: string, default: string): (value: string)
    ensures name in env ==> value == env[name]
    ensures name !in env ==> value == default
    ensures value != GetenvOr(env, name, default) <==> name in env && env[name] == "" && default != ""
  {
    if name in env then env[name] else default
  }

  /** `bool(os.getenv(name) or default)`: any non-empty string is true,
      whatever it spells ("False" and "0" included). */
  function BoolOr(env: Env, name: string, default: bool): (b: bool)
    ensures b <==> IsFilled(env, name) || default
  {
    if IsFilled(env, name) then true else default
  }

  /** The variable is unset or empty, or its value is an integer literal:
      `int(os.getenv(name) or default)` does not raise. */
  predicate IntValid(env: Env, name: string) {
    !IsFilled(env, name) || ParseInt(env[name]).Some?
  }

  /** `value` is what `int(os.getenv(name) or default)` yields. */
  predicate IntResolved(env: Env, name: string, default: int, value: int) {
    if IsFilled(env, name) then ParseInt(env[name]) == Some(value) else value == default
  }

  /** `int(os.getenv(name) or default)`. */
  function IntSetting(env: Env, name: string, default: int): (r: Result<int, ConfigError>)
    ensures r.Ok? <==> IntValid(env, name)
    ensures r.Ok? ==> IntResolved(env, name, default, r.value)
    ensures r.Err? ==> name in env && r.error == InvalidInt(name, env[name])
  {
    if !IsFilled(env, name) then Ok(default)
    else
      match ParseInt(env[name])
      case None => Err(InvalidInt(name, env[name]))
      case Some(n) => Ok(n)
  }

  /** The integer settings in the order config.py reads them. */
  predicate AllIntsValid(env: Env) {
    && IntValid(env, "START_DELAY")
    && IntValid(env, "SNOOZE_TIME")
    && IntValid(env, "AC_SIGNAL_PIN")
    && IntValid(env, "FETCH_INTERVAL")
    && IntValid(env, "PUBLISH_INTERVAL")
  }

  /** The integer constants of config.py, in the order it reads them. */
  datatype IntSettings = IntSettings(
    startDelay: int,
    snoozeTime: int,
    acSignalPin: int,
    fetchInterval: int,
    publishInterval: int)

  /** Lines 22-25 and 27 of config.py, in order: the first integer variable
      whose value `int()` rejects aborts the import, and its name is the
      error's. */
  function ResolveInts(env: Env): (r: Result<IntSettings, ConfigError>)
    ensures r.Ok? <==> AllIntsValid(env)
    ensures r.Ok? ==>
              && IntResolved(env, "START_DELAY", 300, r.value.startDelay)
              && IntResolved(env, "SNOOZE_TIME", 300, r.value.snoozeTime)
              && IntResolved(env, "AC_SIGNAL_PIN", 27, r.value.acSignalPin)
              && IntResolved(env, "FETCH_INTERVAL", 5, r.value.fetchInterval)
              && IntResolved(env, "PUBLISH_INTERVAL", 60, r.value.publishInterval)
    ensures r.Err? ==> r.error.name in env && !IntValid(env, r.error.name)
    ensures r.Err? ==> r.error.text == env[r.error.name]
    // The error names the first rejected variable in source order.
    ensures !IntValid(env, "START_DELAY") ==>
              r == Err(InvalidInt("START_DELAY", env["START_DELAY"]))
    ensures IntValid(env, "START_DELAY") && !IntValid(env, "SNOOZE_TIME") ==>
              r == Err(InvalidInt("SNOOZE_TIME", env["SNOOZE_TIME"]))
    ensures IntValid(env, "START_DELAY") && IntValid(env, "SNOOZE_TIME")
            && !IntValid(env, "AC_SIGNAL_PIN") ==>
              r == Err(InvalidInt("AC_SIGNAL_PIN", env["AC_SIGNAL_PIN"]))
    ensures IntValid(env, "START_DELAY") && IntValid(env, "SNOOZE_TIME")
            && IntValid(env, "AC_SIGNAL_PIN") && !IntValid(env, "FETCH_INTERVAL") ==>
              r == Err(InvalidInt("FETCH_INTERVAL", env["FETCH_INTERVAL"]))
    ensures IntValid(env, "START_DELAY") && IntValid(env, "SNOOZE_TIME")
            && IntValid(env, "AC_SIGNAL_PIN") && IntValid(env, "FETCH_INTERVAL")
            && !IntValid(env, "PUBLISH_INTERVAL") ==>
              r == Err(InvalidInt("PUBLISH_INTERVAL", env["PUBLISH_INTERVAL"]))
  {
    var startDelay :- IntSetting(env, "START_DELAY", 300);
    var snoozeTime :- IntSetting(env, "SNOOZE_TIME", 300);
    var acSignalPin :- IntSetting(env, "AC_SIGNAL_PIN", 27);
    var fetchInterval :- IntSetting(env, "FETCH_INTERVAL", 5);
    var publishInterval :- IntSetting(env, "PUBLISH_INTERVAL", 60);
    Ok(IntSettings(startDelay, snoozeTime, acSignalPin, fetchInterval, publishInterval))
  }

  /** Lines 21-36 of config.py: every constant from its variable. Only the
      integer constants can fail; the others are read in between them and
      cannot, so the outcome is that of `ResolveInts`. */
  function Resolve(env: Env): (r: Result<Settings, ConfigError>)
    ensures r.Ok? <==> AllIntsValid(env)
    ensures r.Err? ==> r == Err(ResolveInts(env).error)
    ensures r.Ok? ==>
              && (r.value.isRunning <==> IsFilled(env, "IS_RUNNING"))
              && r.value.publishInfo == r.value.isRunning
              && r.value.loggingEnabled
    ensures r.Ok? ==>
              && IntResolved(env, "START_DELAY", 300, r.value.startDelay)
              && IntResolved(env, "SNOOZE_TIME", 300, r.value.snoozeTime)
              && IntResolved(env, "AC_SIGNAL_PIN", 27, r.value.acSignalPin)
              && IntResolved(env, "FETCH_INTERVAL", 5, r.value.fetchInterval)
              && IntResolved(env, "PUBLISH_INTERVAL", 60, r.value.publishInterval)
    ensures r.Ok? ==>
              && ("RPI_FAN_SPEED_FILE" in env ==> r.value.fanSpeedFile == env["RPI_FAN_SPEED_FILE"])
              && ("RPI_FAN_SPEED_FILE" !in env ==> r.value.fanSpeedFile == DEFAULT_FAN_SPEED_FILE)
              && ("RPI_FAN_PWM_FILE" in env ==> r.value.fanPwmFile == env["RPI_FAN_PWM_FILE"])
              && ("RPI_FAN_PWM_FILE" !in env ==> r.value.fanPwmFile == DEFAULT_FAN_PWM_FILE)
    ensures r.Ok? ==>
              && (IsFilled(env, "LOG_FILE_AC_INFO") ==> r.value.logFileAcInfo == env["LOG_FILE_AC_INFO"])
              && (!IsFilled(env, "LOG_FILE_AC_INFO") ==> r.value.logFileAcInfo == DEFAULT_LOG_FILE_AC_INFO)
              && (IsFilled(env, "LOG_FILE_OS_INFO") ==> r.value.logFileOsInfo == env["LOG_FILE_OS_INFO"])
              && (!IsFilled(env, "LOG_FILE_OS_INFO") ==> r.value.logFileOsInfo == DEFAULT_LOG_FILE_OS_INFO)
              && (IsFilled(env, "LOG_FILE_HW_INFO") ==> r.value.logFileHwInfo == env["LOG_FILE_HW_INFO"])
              && (!IsFilled(env, "LOG_FILE_HW_INFO") ==> r.value.logFileHwInfo == DEFAULT_LOG_FILE_HW_INFO)
  {
    var isRunning := BoolOr(env, "IS_RUNNING", false);
    var ints :- ResolveInts(env);
    var publishInfo := BoolOr(env, "IS_RUNNING", false);
    var fanSpeedFile := GetenvDefault(env, "RPI_FAN_SPEED_FILE", DEFAULT_FAN_SPEED_FILE);
    var fanPwmFile := GetenvDefault(env, "RPI_FAN_PWM_FILE", DEFAULT_FAN_PWM_FILE);
    var loggingEnabled := BoolOr(env, "LOGGING_ENABLED", true);
    var logFileAcInfo := GetenvOr(env, "LOG_FILE_AC_INFO", DEFAULT_LOG_FILE_AC_INFO);
    var logFileOsInfo := GetenvOr(env, "LOG_FILE_OS_INFO", DEFAULT_LOG_FILE_OS_INFO);
    var logFileHwInfo := GetenvOr(env, "LOG_FILE_HW_INFO", DEFAULT_LOG_FILE_HW_INFO);
    Ok(Settings(
      isRunning, ints.startDelay, ints.snoozeTime, ints.acSignalPin, ints.fetchInterval,
      publishInfo, ints.publishInterval, fanSpeedFile, fanPwmFile,
      loggingEnabled, logFileAcInfo, logFileOsInfo, logFileHwInfo))
  }

  /** With no variables set and no dotenv file, every constant takes its
      internal default. */
  lemma {:induction false} InternalDefaults(s: Startup)
    requires s.process == map[] && !s.dotenvExists && !s.defaultsExists
    ensures Resolve(Environment(s)) == Ok(Settings(
              false, 300, 300, 27, 5, false, 60,
              DEFAULT_FAN_SPEED_FILE, DEFAULT_FAN_PWM_FILE,
              true, DEFAULT_LOG_FILE_AC_INFO, DEFAULT_LOG_FILE_OS_INFO, DEFAULT_LOG_FILE_HW_INFO))
  {
  }

  /** `IS_RUNNING=False` switches the poller on, as does any non-empty value. */
  lemma {:induction false} FalseSpellsTrue(env: Env)
    requires AllIntsValid(env)
    requires "IS_RUNNING" in env && env["IS_RUNNING"] == "False"
    ensures Resolve(env).Ok? && Resolve(env).value.isRunning && Resolve(env).value.publishInfo
  {
  }
}
