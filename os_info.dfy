/** Operating-system metrics (os_info.py). Each psutil or clock call becomes an
    input: `None` where the call raised, otherwise the counts it returned.
    Every reader catches its own failures, so none of them fails. */
module OsInfo {
  import opened Wrappers
  import opened Numerals
  import opened Rounding

  /** Bytes per gibibyte, 1024 ** 3. */
  const GB_TO_BYTES: nat := 1024 * 1024 * 1024
  /** Bytes per mebibyte, 1024 ** 2. */
  const MB_TO_BYTES: nat := 1024 * 1024
  const SECONDS_PER_HOUR: nat := 3600

  /** The fields of `psutil.virtual_memory()` the reader uses, in bytes. */
  datatype VirtualMemory = VirtualMemory(used: nat, active: nat, total: nat)

  /** The fields of `psutil.net_io_counters()` the reader uses, in bytes. */
  datatype NetIoCounters = NetIoCounters(bytesSent: nat, bytesRecv: nat)

  /** The dict `get_ram_info` returns, in GiB. */
  datatype RamInfo = RamInfo(used: Option<Decimal>, active: Option<Decimal>, total: Option<Decimal>)

  /** The dict `get_network_info` returns: MiB sent and received, and the
      number of connections. */
  datatype NetworkInfo = NetworkInfo(send: Option<Decimal>, receive: Option<Decimal>, connection: Option<nat>)

  /** The dict `get_system_info` returns: one field per key. */
  datatype SystemInfo = SystemInfo(
    uptime: Option<Decimal>,
    process: Option<nat>,
    thread: Option<nat>,
    cpu: Option<Decimal>,
    ram: RamInfo,
    network: NetworkInfo)

  /** What the external calls of one `get_system_info` call returned:
      `psutil.boot_time()` and `time.time()` in whole seconds, `psutil.pids()`,
      the `num_threads()` of each process `psutil.process_iter()` yields
      (`None` for a process whose call raised), the CPU sample,
      `psutil.virtual_memory()`, `psutil.net_io_counters()` and the length of
      `psutil.net_connections()`. */
  datatype OsProbe = OsProbe(
    bootTime: Option<int>,
    now: int,
    pids: Option<seq<int>>,
    threadCounts: Option<seq<Option<nat>>>,
    cpuPercent: Option<Decimal>,
    memory: Option<VirtualMemory>,
    netIo: Option<NetIoCounters>,
    connections: Option<nat>)

  /** `d` is `round(bytes / unit, decimal)`: present, with `decimal` fraction
      digits, and the half-to-even rounding of the exact quotient. For the
      power-of-two units used here this is what CPython computes, since
      `bytes / unit` is exact in binary floating point. */
  predicate IsConverted(d: Option<Decimal>, bytes: nat, unit: nat, decimal: nat)
    requires unit > 0
  {
    d.Some? && d.value.scale == decimal && IsRoundHalfEven(bytes * Pow10(decimal), unit, d.value.units)
  }

  /** `get_ram_info(decimal)`: all three figures in GiB, or all three `None`
      when `psutil.virtual_memory()` raised; never a partly filled record. */
  function GetRamInfo(memory: Option<VirtualMemory>, decimal: nat): (r: RamInfo)
    ensures memory.None? ==> r == RamInfo(None, None, None)
    ensures memory.Some? ==>
              && IsConverted(r.used, memory.value.used, GB_TO_BYTES, decimal)
              && IsConverted(r.active, memory.value.active, GB_TO_BYTES, decimal)
              && IsConverted(r.total, memory.value.total, GB_TO_BYTES, decimal)
  {
    match memory
    case None => RamInfo(None, None, None)
    case Some(m) =>
      RamInfo(
        Some(Round(m.used, GB_TO_BYTES, decimal)),
        Some(Round(m.active, GB_TO_BYTES, decimal)),
        Some(Round(m.total, GB_TO_BYTES, decimal)))
  }

  /** Every process's thread count is known. */
  predicate AllKnown(counts: seq<Option<nat>>) {
    forall i :: 0 <= i < |counts| ==> counts[i].Some?
  }

  /** The sum of a list of known thread counts. */
  function Total(counts: seq<Option<nat>>): nat
    requires AllKnown(counts)
    decreases |counts|
  {
    if |counts| == 0 then 0 else counts[0].value + Total(counts[1..])
  }

  /** `sum(p.num_threads() for p in ...)` continued from the running total
      `acc`: the first process whose call raises ends the sum with `None`. */
  function SumThreads(counts: seq<Option<nat>>, acc: nat): (r: Option<nat>)
    ensures r.Some? <==> AllKnown(counts)
    ensures r.Some? ==> r.value == acc + Total(counts)
    decreases |counts|
  {
    if |counts| == 0 then Some(acc)
    else
      match counts[0]
      case None => None
      case Some(n) => SumThreads(counts[1..], acc + n)
  }

  /** `get_active_threads()`: the total over all processes, or `None` when
      the enumeration or any single process failed; never a partial sum. */
  function GetActiveThreads(processes: Option<seq<Option<nat>>>): (r: Option<nat>)
    ensures r.Some? <==> processes.Some? && AllKnown(processes.value)
    ensures r.Some? ==> r.value == Total(processes.value)
  {
    match processes
    case None => None
    case Some(counts) => SumThreads(counts, 0)
  }

  /** `get_total_process()`: the number of PIDs, or `None` on failure. */
  function GetTotalProcess(pids: Option<seq<int>>): (r: Option<nat>)
    ensures r.Some? <==> pids.Some?
    ensures r.Some? ==> r.value == |pids.value|
  {
    match pids
    case None => None
    case Some(list) => Some(|list|)
  }

  /** `get_network_info(decimal)`: MiB sent and received and the connection
      count, or all three `None` when either psutil call raised. */
  function GetNetworkInfo(netIo: Option<NetIoCounters>, connections: Option<nat>, decimal: nat): (r: NetworkInfo)
    ensures netIo.None? || connections.None? ==> r == NetworkInfo(None, None, None)
    ensures netIo.Some? && connections.Some? ==>
              && IsConverted(r.send, netIo.value.bytesSent, MB_TO_BYTES, decimal)
              && IsConverted(r.receive, netIo.value.bytesRecv, MB_TO_BYTES, decimal)
              && r.connection == connections
  {
    match netIo
    case None => NetworkInfo(None, None, None)
    case Some(io) =>
      match connections
      case None => NetworkInfo(None, None, None)
      case Some(count) =>
        NetworkInfo(
          Some(Round(io.bytesSent, MB_TO_BYTES, decimal)),
          Some(Round(io.bytesRecv, MB_TO_BYTES, decimal)),
          Some(count))
  }

  /** `get_uptime(decimal)`: hours since boot, rounded to `decimal` places,
      or `None` when `psutil.boot_time()` raised. */
  function GetUptime(bootTime: Option<int>, now: int, decimal: nat): (r: Option<Decimal>)
    ensures r.Some? <==> bootTime.Some?
    ensures r.Some? ==>
              && r.value.scale == decimal
              && IsNearest((now - bootTime.value) * Pow10(decimal), SECONDS_PER_HOUR, r.value.units)
  {
    match bootTime
    case None => None
    case Some(boot) => Some(Round(now - boot, SECONDS_PER_HOUR, decimal))
  }

  /** `get_system_info()`: all six readers run, each isolated from the
      others' failures, with the default two decimals. Each field is its own
      reader's result, and is present exactly when its own source answered. */
  function GetSystemInfo(p: OsProbe): (info: SystemInfo)
    ensures info.uptime == GetUptime(p.bootTime, p.now, 2)
    ensures info.process == GetTotalProcess(p.pids)
    ensures info.thread == GetActiveThreads(p.threadCounts)
    ensures info.ram == GetRamInfo(p.memory, 2)
    ensures info.network == GetNetworkInfo(p.netIo, p.connections, 2)
    ensures info.uptime.Some? <==> p.bootTime.Some?
    ensures info.process.Some? <==> p.pids.Some?
    ensures info.thread.Some? <==> p.threadCounts.Some? && AllKnown(p.threadCounts.value)
    ensures info.cpu == p.cpuPercent
    ensures info.ram.used.Some? <==> p.memory.Some?
    ensures info.network.send.Some? <==> p.netIo.Some? && p.connections.Some?
  {
    SystemInfo(
      GetUptime(p.bootTime, p.now, 2),
      GetTotalProcess(p.pids),
      GetActiveThreads(p.threadCounts),
      p.cpuPercent,
      GetRamInfo(p.memory, 2),
      GetNetworkInfo(p.netIo, p.connections, 2))
  }

  /** A single process whose thread count cannot be read voids the whole
      count, however many others succeeded. */
  lemma {:induction false} OneFailedProcessVoidsThreads(counts: seq<Option<nat>>, i: nat)
    requires i < |counts| && counts[i].None?
    ensures GetActiveThreads(Some(counts)) == None
  {
  }

  /** The thread total covers every process: it is at least each count. */
  lemma {:induction false} TotalBoundsEach(counts: seq<Option<nat>>, i: nat)
    requires AllKnown(counts) && i < |counts|
    ensures counts[i].value <= Total(counts)
    decreases |counts|
  {
    if i > 0 {
      TotalBoundsEach(counts[1..], i - 1);
    }
  }

  /** Whole multiples of the unit convert exactly: `k` GiB of memory reads
      as `k` with every digit after the point zero. */
  lemma {:induction false} WholeUnitsExact(k: nat, unit: nat, decimal: nat)
    requires unit > 0
    ensures Round(k * unit, unit, decimal) == Decimal(k * Pow10(decimal), decimal)
  {
    var p := Pow10(decimal);
    assert k * unit * p - (k * p) * unit == 0;
    RoundHalfEvenUnique(k * unit * p, unit, k * p, RoundHalfEven(k * unit * p, unit));
  }

  /** 1073741824 bytes of memory are 1.00 GiB. */
  lemma {:induction false} RamExample()
    ensures GetRamInfo(Some(VirtualMemory(1073741824, 1073741824, 1073741824)), 2)
              == RamInfo(Some(Decimal(100, 2)), Some(Decimal(100, 2)), Some(Decimal(100, 2)))
  {
    WholeUnitsExact(1, GB_TO_BYTES, 2);
  }

  /** 2097152 bytes sent are 2.00 MiB. */
  lemma {:induction false} NetworkExample(connections: nat)
    ensures GetNetworkInfo(Some(NetIoCounters(2097152, 0)), Some(connections), 2)
              == NetworkInfo(Some(Decimal(200, 2)), Some(Decimal(0, 2)), Some(connections))
  {
    WholeUnitsExact(2, MB_TO_BYTES, 2);
    WholeUnitsExact(0, MB_TO_BYTES, 2);
  }

  /** Each field of the system record is determined by its own source alone. */
  lemma {:induction false} SystemIsolation(p: OsProbe, q: OsProbe)
    ensures p.bootTime == q.bootTime && p.now == q.now ==>
              GetSystemInfo(p).uptime == GetSystemInfo(q).uptime
    ensures p.pids == q.pids ==> GetSystemInfo(p).process == GetSystemInfo(q).process
    ensures p.threadCounts == q.threadCounts ==> GetSystemInfo(p).thread == GetSystemInfo(q).thread
    ensures p.memory == q.memory ==> GetSystemInfo(p).ram == GetSystemInfo(q).ram
    ensures p.netIo == q.netIo && p.connections == q.connections ==>
              GetSystemInfo(p).network == GetSystemInfo(q).network
  {
  }
}
