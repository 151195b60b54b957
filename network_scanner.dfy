/** The scanner's record keeping: the host table it builds during discovery
    and port scans, the cooperative stop flag and the summary. Every probe
    of the outside world (connect, ping, name lookups, the stop button) is
    an oracle in a Probes value; the worker threads are modelled as one
    sequential walk over the queue. */
module NetworkScanner {
  import opened Common
  import OsDetection

  // =====================================================================
  // Pure helpers

  /** The network assumed when the local address is unknown. */
  const DefaultNetwork: string := "192.168.1.0/24"

  /** get_network_from_ip: the /24 around a dotted address. None models the
      IndexError raised when the address has fewer than three parts. */
  function NetworkFromIp(ip: Option<string>): Option<string>
  {
    match ip
    case None => Some(DefaultNetwork)
    case Some(s) =>
      if s == "" || s == "127.0.0.1" then Some(DefaultNetwork)
      else
        var parts := Split(s, '.');
        if |parts| < 3 then None else Some(parts[0] + "." + parts[1] + "." + parts[2] + ".0/24")
  }

  /** A missing, empty or loopback address gives the default network; any
      other address fails exactly when it holds fewer than two dots. */
  lemma NetworkFromIpCases(ip: Option<string>)
    ensures NetworkFromIp(ip) == Some(DefaultNetwork) <==
              (ip.None? || ip.value == "" || ip.value == "127.0.0.1")
    ensures NetworkFromIp(ip).None? <==>
              (ip.Some? && ip.value != "" && ip.value != "127.0.0.1" && Occurrences(ip.value, '.') < 2)
  {
    if ip.Some? {
      SplitLength(ip.value, '.');
    }
  }

  /** For an address a.b.c followed by nothing or by further dot-parts, the
      network is a.b.c.0/24 (CIDR prefix notation, section 3.1 of RFC 4632). */
  lemma NetworkOfDotted(a: string, b: string, c: string, tail: string)
    requires '.' !in a && '.' !in b && '.' !in c
    requires tail == [] || tail[0] == '.'
    requires a + "." + b + "." + c + tail != "127.0.0.1"
    ensures NetworkFromIp(Some(a + "." + b + "." + c + tail)) == Some(a + "." + b + "." + c + ".0/24")
  {
    var s := a + "." + b + "." + c + tail;
    DottedParts(a, b, c, tail);
    assert |s| > 0;
    NetworkOfParts(s, Split(s, '.'));
  }

  /** The first three dot-parts of a.b.c followed by a tail are a, b and c. */
  lemma DottedParts(a: string, b: string, c: string, tail: string)
    requires '.' !in a && '.' !in b && '.' !in c
    requires tail == [] || tail[0] == '.'
    ensures var parts := Split(a + "." + b + "." + c + tail, '.');
      |parts| >= 3 && parts[0] == a && parts[1] == b && parts[2] == c
  {
    var dot: string := ".";
    var front := a + dot;
    var bdot := b + dot;
    // regroup a.b.c+tail as (a.) + (b.c+tail) and b.c+tail as (b.) + (c+tail)
    AppendAssoc(front, b, dot);
    AppendAssoc(front, bdot, c);
    AppendAssoc(front, bdot + c, tail);
    AppendAssoc(bdot, c, tail);
    SplitCons(a, '.', bdot + c + tail);
    SplitCons(b, '.', c + tail);
    SplitHead(c, '.', tail);
  }

  /** An address with at least three dot-parts has the /24 of its first three. */
  lemma NetworkOfParts(s: string, parts: seq<string>)
    requires s != "" && s != "127.0.0.1"
    requires Split(s, '.') == parts && |parts| >= 3
    ensures NetworkFromIp(Some(s)) == Some(parts[0] + "." + parts[1] + "." + parts[2] + ".0/24")
  {
  }

  /** The fallback table used when the system service database has no
      entry for a port. */
  const CommonPorts: map<int, string> := map[
    21 := "FTP", 22 := "SSH", 23 := "Telnet", 25 := "SMTP", 53 := "DNS",
    80 := "HTTP", 110 := "POP3", 115 := "SFTP", 135 := "RPC", 139 := "NetBIOS",
    143 := "IMAP", 194 := "IRC", 443 := "HTTPS", 445 := "SMB", 1433 := "MSSQL",
    3306 := "MySQL", 3389 := "RDP", 5900 := "VNC", 8080 := "HTTP-Proxy"
  ]

  /** get_service_name: the system database's name when it has one, else the
      fallback table, else "unknown". servDb models socket.getservbyport. */
  function ServiceName(port: int, servDb: int -> Option<string>): (name: string)
    ensures servDb(port).Some? ==> name == servDb(port).value
    ensures servDb(port).None? && port in CommonPorts ==> name == CommonPorts[port] && name != "unknown"
    ensures servDb(port).None? && port !in CommonPorts ==> name == "unknown"
  {
    match servDb(port)
    case Some(n) => n
    case None => if port in CommonPorts then CommonPorts[port] else "unknown"
  }

  /** The fallback table lists exactly nineteen ports. */
  lemma CommonPortsSize()
    ensures |CommonPorts| == 19
  {
    var keys := [21, 22, 23, 25, 53, 80, 110, 115, 135, 139, 143, 194, 443, 445, 1433, 3306, 3389, 5900, 8080];
    assert forall k :: 0 <= k < |keys| - 1 ==> keys[k] < keys[k + 1];
    IncreasingDistinct(keys);
    assert CommonPorts.Keys == set p | p in keys;
    SetOfDistinct(keys);
  }

  /** The addresses prefix.1 through prefix.254 that a /24 network holds. */
  function Hosts24(prefix: string): (hosts: seq<string>)
    ensures |hosts| == 254
    ensures forall i :: 0 <= i < 254 ==> hosts[i] == prefix + "." + NatToString(i + 1)
  {
    seq(254, i requires 0 <= i < 254 => prefix + "." + NatToString(i + 1))
  }

  /** The host list has no duplicate. */
  lemma Hosts24Distinct(prefix: string)
    ensures Distinct(Hosts24(prefix))
  {
    var hosts := Hosts24(prefix);
    forall i, j | 0 <= i < j < 254 ensures hosts[i] != hosts[j] {
      if hosts[i] == hosts[j] {
        var n := |prefix| + 1;
        assert hosts[i][n..] == NatToString(i + 1);
        assert hosts[j][n..] == NatToString(j + 1);
        NatToStringInjective(i + 1, j + 1);
      }
    }
  }

  // =====================================================================
  // Host records

  const Online: string := "online"
  const StatusUnknown: string := "unknown"

  datatype OsInfo = OsInfo(name: string, confidence: real)

  /** The os field every fresh record starts with. */
  const NoOs: OsInfo := OsInfo(OsDetection.Unknown, 0.0)

  datatype Host = Host(mac: Option<string>, hostname: Option<string>, ports: map<int, string>,
                       status: string, os: OsInfo)

  /** The outside world as seen by one scan. */
  datatype Probes = Probes(
    isOpen: (string, int) -> bool,              // connect_ex(ip, port) == 0
    responds: string -> bool,                   // the ping command succeeds
    macOf: string -> Option<string>,            // get_mac_address
    hostnameOf: string -> Option<string>,       // get_hostname
    servDb: int -> Option<string>,              // socket.getservbyport
    pingOutput: string -> Option<string>,       // the OS detector's ping output
    bannerOf: string -> int -> Option<string>,  // the OS detector's banner reads
    matches: (string, string) -> bool,          // the OS detector's banner patterns
    stopAt: nat -> bool                         // stop_scan arrives before queue item k
  )

  /** A record for an address first seen by a port scan. */
  function PortScanHost(ip: string, probes: Probes): Host
  {
    Host(probes.macOf(ip), probes.hostnameOf(ip), map[], StatusUnknown, NoOs)
  }

  /** A record for an address found by discovery. */
  function DiscoveredHost(mac: Option<string>, hostname: Option<string>): (h: Host)
    ensures h.status == Online && h.ports == map[] && h.os == NoOs
  {
    Host(mac, hostname, map[], Online, NoOs)
  }

  /** The services of the listed ports, keyed by port. */
  function ServiceMap(ports: seq<int>, servDb: int -> Option<string>): map<int, string>
  {
    if ports == [] then map[]
    else ServiceMap(ports[..|ports| - 1], servDb)[ports[|ports| - 1] := ServiceName(ports[|ports| - 1], servDb)]
  }

  /** A record after each listed port was found open, in order. */
  function WithOpenPorts(h: Host, ports: seq<int>, servDb: int -> Option<string>): Host
  {
    if ports == [] then h
    else
      var prev := WithOpenPorts(h, ports[..|ports| - 1], servDb);
      var p := ports[|ports| - 1];
      prev.(ports := prev.ports[p := ServiceName(p, servDb)], status := Online)
  }

  /** Each open port is recorded with its service, the other ports keep
      theirs, the status is online once a port opened, and nothing else
      changes. */
  lemma {:induction false} WithOpenPortsSpec(h: Host, ports: seq<int>, servDb: int -> Option<string>)
    ensures var r := WithOpenPorts(h, ports, servDb);
      && (forall q :: q in r.ports <==> q in h.ports || q in ports)
      && (forall q :: q in r.ports ==> r.ports[q] == if q in ports then ServiceName(q, servDb) else h.ports[q])
      && r.status == (if ports == [] then h.status else Online)
      && r.mac == h.mac && r.hostname == h.hostname && r.os == h.os
    decreases |ports|
  {
    if ports != [] {
      var init := ports[..|ports| - 1];
      WithOpenPortsSpec(h, init, servDb);
      assert forall q :: q in ports <==> q in init || q == ports[|ports| - 1];
    }
  }

  // =====================================================================
  // Host tables: a dict keyed by address, kept in insertion order

  datatype Table = Table(records: map<string, Host>, order: seq<string>)

  /** The order lists every key exactly once. */
  ghost predicate WellFormed(t: Table)
  {
    Distinct(t.order) && forall ip :: ip in t.order <==> ip in t.records
  }

  /** results[ip] = h: a new key goes to the end, a known key keeps its place. */
  function Put(t: Table, ip: string, h: Host): (r: Table)
    requires WellFormed(t)
    ensures WellFormed(r)
    ensures r.records == t.records[ip := h]
  {
    if ip in t.records then Table(t.records[ip := h], t.order)
    else Table(t.records[ip := h], t.order + [ip])
  }

  /** Overwriting the record just put is the same as putting the new one. */
  lemma PutOver(t: Table, ip: string, x: Host, y: Host)
    requires WellFormed(t)
    ensures Table(Put(t, ip, x).records[ip := y], Put(t, ip, x).order) == Put(t, ip, y)
  {
    assert t.records[ip := x][ip := y] == t.records[ip := y];
  }

  /** The sum of the port-map sizes of the listed records. */
  function OpenPortCount(order: seq<string>, records: map<string, Host>): nat
    requires forall ip :: ip in order ==> ip in records
  {
    if order == [] then 0
    else OpenPortCount(order[..|order| - 1], records) + |records[order[|order| - 1]].ports|
  }

  // =====================================================================
  // The queue walk and the stop flag

  /** The first queue item from k on before which a stop arrives; total
      when none does. */
  function StopIndex(stopAt: nat -> bool, k: nat, total: nat): (n: nat)
    requires k <= total
    ensures k <= n <= total
    ensures forall j :: k <= j < n ==> !stopAt(j)
    ensures n < total ==> stopAt(n)
    decreases total - k
  {
    if k == total then total else if stopAt(k) then k else StopIndex(stopAt, k + 1, total)
  }

  /** How many of total queue items the workers take: none when the flag is
      already set, otherwise every item before the first stop. */
  function Taken(stopped: bool, total: nat, stopAt: nat -> bool): (n: nat)
    ensures n <= total
    ensures stopped ==> n == 0
    ensures !stopped ==> (forall j :: 0 <= j < n ==> !stopAt(j)) && (n < total ==> stopAt(n))
  {
    if stopped then 0 else StopIndex(stopAt, 0, total)
  }

  /** The ports of [lo, hi) that answer, in ascending order. */
  function OpenPorts(ip: string, lo: int, hi: int, isOpen: (string, int) -> bool): seq<int>
    requires lo <= hi
    decreases hi - lo
  {
    if hi == lo then []
    else
      var prev := OpenPorts(ip, lo, hi - 1, isOpen);
      if isOpen(ip, hi - 1) then prev + [hi - 1] else prev
  }

  /** Finding one more port open adds it, with its service, to both the
      port map and the record. */
  lemma OpenPortAppend(h: Host, ports: seq<int>, p: int, servDb: int -> Option<string>)
    ensures ServiceMap(ports + [p], servDb) == ServiceMap(ports, servDb)[p := ServiceName(p, servDb)]
    ensures var prev := WithOpenPorts(h, ports, servDb);
      WithOpenPorts(h, ports + [p], servDb) == prev.(ports := prev.ports[p := ServiceName(p, servDb)], status := Online)
  {
    assert (ports + [p])[..|ports|] == ports;
  }

  /** The walk reports exactly the answering ports of [lo, hi). */
  lemma {:induction false} OpenPortsMembers(ip: string, lo: int, hi: int, isOpen: (string, int) -> bool)
    requires lo <= hi
    ensures forall p :: p in OpenPorts(ip, lo, hi, isOpen) <==> lo <= p < hi && isOpen(ip, p)
    decreases hi - lo
  {
    if hi > lo {
      OpenPortsMembers(ip, lo, hi - 1, isOpen);
    }
  }

  /** Strictly increasing, so no port is listed twice. */
  predicate Ascending(s: seq<int>)
  {
    forall i, j :: 0 <= i < j < |s| ==> s[i] < s[j]
  }

  /** The walk reports the ports in ascending order, so each once. */
  lemma {:induction false} OpenPortsAscending(ip: string, lo: int, hi: int, isOpen: (string, int) -> bool)
    requires lo <= hi
    ensures Ascending(OpenPorts(ip, lo, hi, isOpen))
    decreases hi - lo
  {
    if hi > lo {
      OpenPortsAscending(ip, lo, hi - 1, isOpen);
      OpenPortsMembers(ip, lo, hi - 1, isOpen);
      var prev := OpenPorts(ip, lo, hi - 1, isOpen);
      if isOpen(ip, hi - 1) {
        var r := prev + [hi - 1];
        assert OpenPorts(ip, lo, hi, isOpen) == r;
        forall i, j | 0 <= i < j < |r| ensures r[i] < r[j] {
          assert r[i] == prev[i] && prev[i] in prev;
          if j < |prev| {
            assert r[j] == prev[j] && prev[i] < prev[j];
          } else {
            assert r[j] == hi - 1 && prev[i] < hi - 1;
          }
        }
      }
    }
  }

  /** The records of the hosts that answered a ping, in queue order. */
  function PingTable(hosts: seq<string>, probes: Probes): (t: Table)
    ensures WellFormed(t)
  {
    if hosts == [] then Table(map[], [])
    else
      var prev := PingTable(hosts[..|hosts| - 1], probes);
      var ip := hosts[|hosts| - 1];
      if probes.responds(ip) then Put(prev, ip, DiscoveredHost(probes.macOf(ip), probes.hostnameOf(ip)))
      else prev
  }

  datatype ArpReply = ArpReply(ip: string, mac: string)

  /** The records built from the ARP replies, in reply order. */
  function ArpTable(replies: seq<ArpReply>, probes: Probes): (t: Table)
    ensures WellFormed(t)
  {
    if replies == [] then Table(map[], [])
    else
      var prev := ArpTable(replies[..|replies| - 1], probes);
      var r := replies[|replies| - 1];
      Put(prev, r.ip, DiscoveredHost(Some(r.mac), probes.hostnameOf(r.ip)))
  }

  /** What the ARP broadcast yields: no ARP support, a failed broadcast, or
      the replies. */
  datatype ArpOutcome = ArpUnavailable | ArpFailed | ArpReplies(replies: seq<ArpReply>)

  /** The record a port scan leaves for ip. */
  function ScannedHost(before: Host, ip: string, openOrder: seq<int>, hasDetector: bool, probes: Probes): Host
  {
    var after := WithOpenPorts(before, openOrder, probes.servDb);
    if hasDetector && openOrder != [] then
      var d := OsDetection.OsGuess(probes.pingOutput(ip), openOrder, probes.bannerOf(ip), probes.matches);
      after.(os := OsInfo(d.os, d.confidence))
    else after
  }

  datatype Summary = Summary(timestamp: string, network: string, localIp: string,
                             gateway: Option<string>, totalDevices: nat, totalOpenPorts: nat,
                             devices: Table)

  // =====================================================================
  // The scanner

  class Scanner {
    const localIp: string
    const gateway: Option<string>
    const network: string
    const hasDetector: bool
    var scanResults: map<string, Host>
    var hostOrder: seq<string>
    var isScanning: bool
    var stopFlag: bool

    ghost predicate Valid()
      reads this
    {
      WellFormed(Table(scanResults, hostOrder))
    }

    /** The results as a table. */
    function Results(): Table
      reads this
    {
      Table(scanResults, hostOrder)
    }

    /** __init__, with the local address and the gateway looked up by the
        caller and the detector present or not. */
    constructor (localIp: string, gateway: Option<string>, hasDetector: bool)
      requires NetworkFromIp(Some(localIp)).Some?
      ensures Valid()
      ensures this.localIp == localIp && this.gateway == gateway && this.hasDetector == hasDetector
      ensures network == NetworkFromIp(Some(localIp)).value
      ensures scanResults == map[] && hostOrder == [] && !isScanning && !stopFlag
    {
      this.localIp := localIp;
      this.gateway := gateway;
      this.network := NetworkFromIp(Some(localIp)).value;
      this.hasDetector := hasDetector;
      scanResults := map[];
      hostOrder := [];
      isScanning := false;
      stopFlag := false;
    }

    /** stop_scan */
    method StopScan()
      modifies this
      ensures stopFlag
      ensures scanResults == old(scanResults) && hostOrder == old(hostOrder) && isScanning == old(isScanning)
    {
      stopFlag := true;
    }

    /** scan_ports over [start, end]: the record for ip is created if absent,
        every open port taken from the queue is added with its service and
        flips the status to online, and the detector's verdict replaces the
        os field when at least one port was open. Returns the open ports
        with their services, and their order. */
    method ScanPorts(ip: string, start: int, end: int, probes: Probes)
      returns (openPorts: map<int, string>, openOrder: seq<int>)
      requires Valid()
      requires 1 <= start <= end <= 65535
      modifies this
      ensures Valid()
      ensures openOrder == OpenPorts(ip, start, start + Taken(old(stopFlag), end - start + 1, probes.stopAt), probes.isOpen)
      ensures openPorts == ServiceMap(openOrder, probes.servDb)
      ensures var before := if ip in old(scanResults) then old(scanResults)[ip] else PortScanHost(ip, probes);
        Results() == Put(old(Results()), ip, ScannedHost(before, ip, openOrder, hasDetector, probes))
      ensures stopFlag == (old(stopFlag) || Taken(old(stopFlag), end - start + 1, probes.stopAt) < end - start + 1)
      ensures isScanning == old(isScanning)
    {
      ghost var r0 := Results();
      var stopped0 := stopFlag;
      var before := if ip in scanResults then scanResults[ip] else PortScanHost(ip, probes);
      var t0 := Put(Results(), ip, before);
      scanResults := t0.records;
      hostOrder := t0.order;
      var stopped;
      openPorts, openOrder, stopped := PortWalk(ip, start, end, stopped0, probes, t0, before);
      stopFlag := stopped;
      ghost var after := WithOpenPorts(before, openOrder, probes.servDb);
      ghost var target := ScannedHost(before, ip, openOrder, hasDetector, probes);
      PutOver(r0, ip, before, after);
      if hasDetector && openOrder != [] {
        RecordOs(ip, openOrder, probes);
        PutOver(r0, ip, after, target);
      }
      assert Results() == Put(r0, ip, target);
    }

    /** The detector's verdict replaces the os field of ip's record. */
    method RecordOs(ip: string, openOrder: seq<int>, probes: Probes)
      requires ip in scanResults
      modifies this
      ensures var d := OsDetection.OsGuess(probes.pingOutput(ip), openOrder, probes.bannerOf(ip), probes.matches);
        scanResults == old(scanResults)[ip := old(scanResults)[ip].(os := OsInfo(d.os, d.confidence))]
      ensures hostOrder == old(hostOrder) && isScanning == old(isScanning) && stopFlag == old(stopFlag)
    {
      var d := OsDetection.DetectOs(probes.pingOutput(ip), openOrder, probes.bannerOf(ip), probes.matches);
      var h := scanResults[ip];
      scanResults := scanResults[ip := h.(os := OsInfo(d.os, d.confidence))];
    }

    /** The worker loop of scan_ports: take ports from the queue until it is
        empty or the stop flag is set, recording each open one. */
    method PortWalk(ip: string, start: int, end: int, stopped0: bool, probes: Probes, ghost t0: Table, ghost before: Host)
      returns (openPorts: map<int, string>, openOrder: seq<int>, stopped: bool)
      requires start <= end
      requires scanResults == t0.records && hostOrder == t0.order && ip in t0.records && t0.records[ip] == before
      modifies this
      ensures openOrder == OpenPorts(ip, start, start + Taken(stopped0, end - start + 1, probes.stopAt), probes.isOpen)
      ensures openPorts == ServiceMap(openOrder, probes.servDb)
      ensures stopped == (stopped0 || Taken(stopped0, end - start + 1, probes.stopAt) < end - start + 1)
      ensures scanResults == t0.records[ip := WithOpenPorts(before, openOrder, probes.servDb)]
      ensures hostOrder == t0.order && isScanning == old(isScanning)
    {
      openPorts := map[];
      openOrder := [];
      assert t0.records[ip := before] == t0.records;
      if stopped0 {
        return openPorts, openOrder, true;
      }
      var total := end - start + 1;
      ghost var n := StopIndex(probes.stopAt, 0, total);
      var k := 0;
      while k < total && !probes.stopAt(k)
        invariant 0 <= k <= total
        invariant StopIndex(probes.stopAt, k, total) == n
        invariant hostOrder == t0.order && isScanning == old(isScanning)
        invariant openOrder == OpenPorts(ip, start, start + k, probes.isOpen)
        invariant openPorts == ServiceMap(openOrder, probes.servDb)
        invariant scanResults == t0.records[ip := WithOpenPorts(before, openOrder, probes.servDb)]
        decreases total - k
      {
        openPorts, openOrder := TakePort(ip, start + k, probes, openPorts, openOrder, t0, before);
        k := k + 1;
      }
      stopped := k < total;
    }

    /** One queue item of scan_ports: when the port answers, it is added to
        the open ports and to the record, whose status becomes online. */
    method TakePort(ip: string, port: int, probes: Probes, openPorts: map<int, string>, openOrder: seq<int>,
                    ghost t0: Table, ghost before: Host)
      returns (openPorts': map<int, string>, openOrder': seq<int>)
      requires openPorts == ServiceMap(openOrder, probes.servDb)
      requires scanResults == t0.records[ip := WithOpenPorts(before, openOrder, probes.servDb)]
      modifies this
      ensures openOrder' == if probes.isOpen(ip, port) then openOrder + [port] else openOrder
      ensures openPorts' == ServiceMap(openOrder', probes.servDb)
      ensures scanResults == t0.records[ip := WithOpenPorts(before, openOrder', probes.servDb)]
      ensures hostOrder == old(hostOrder) && isScanning == old(isScanning) && stopFlag == old(stopFlag)
    {
      openPorts', openOrder' := openPorts, openOrder;
      if probes.isOpen(ip, port) {
        var service := ServiceName(port, probes.servDb);
        openPorts' := openPorts[port := service];
        var h := scanResults[ip];
        ghost var h' := h.(ports := h.ports[port := service], status := Online);
        openOrder' := openOrder + [port];
        OpenPortAppend(before, openOrder, port, probes.servDb);
        MapOverwrite(t0.records, ip, h, h');
        scanResults := scanResults[ip := h.(ports := h.ports[port := service], status := Online)];
      }
    }

    /** scan_network_ping: the table is emptied and the flag cleared, then
        every host taken from the queue that answers is recorded as online.
        hosts is None when the network cannot be parsed, which ends the scan
        with an empty table; otherwise it holds the hosts of the /24 network,
        so every answering host taken is recorded once. */
    method ScanNetworkPing(hosts: Option<seq<string>>, probes: Probes) returns (found: map<string, Host>)
      requires Valid()
      requires hosts.Some? ==> exists p :: network == p + ".0/24" && hosts.value == Hosts24(p)
      modifies this
      ensures Valid()
      ensures hosts.None? ==> Results() == Table(map[], []) && !stopFlag
      ensures hosts.Some? ==>
        var n := Taken(false, |hosts.value|, probes.stopAt);
        && Results() == PingTable(hosts.value[..n], probes)
        && hostOrder == Responders(hosts.value[..n], probes)
        && stopFlag == (n < |hosts.value|)
      ensures !isScanning && found == scanResults
    {
      isScanning := true;
      stopFlag := false;
      scanResults := map[];
      hostOrder := [];
      if hosts.Some? {
        var queue := hosts.value;
        ghost var n := Taken(false, |queue|, probes.stopAt);
        var k := 0;
        while k < |queue|
          invariant 0 <= k <= n
          invariant !stopFlag
          invariant Results() == PingTable(queue[..k], probes)
        {
          if probes.stopAt(k) {
            stopFlag := true;
          }
          if stopFlag {
            break;
          }
          var ip := queue[k];
          assert queue[..k + 1][..k] == queue[..k];
          if probes.responds(ip) {
            var t := Put(Results(), ip, DiscoveredHost(probes.macOf(ip), probes.hostnameOf(ip)));
            scanResults := t.records;
            hostOrder := t.order;
          }
          k := k + 1;
        }
        assert k == n;
        Hosts24Order(network, queue, n, probes);
      }
      isScanning := false;
      found := scanResults;
    }

    /** scan_network_arp: without ARP support the ping scan runs instead;
        otherwise the table is emptied and every reply is recorded as online.
        The ARP loop does not look at the stop flag. */
    method ScanNetworkArp(arp: ArpOutcome, hosts: Option<seq<string>>, probes: Probes)
      returns (found: map<string, Host>)
      requires Valid()
      requires hosts.Some? ==> exists p :: network == p + ".0/24" && hosts.value == Hosts24(p)
      modifies this
      ensures Valid()
      ensures arp.ArpFailed? ==> Results() == Table(map[], [])
      ensures arp.ArpReplies? ==> Results() == ArpTable(arp.replies, probes)
      ensures !arp.ArpUnavailable? ==> !stopFlag
      ensures arp.ArpUnavailable? && hosts.Some? ==>
        var n := Taken(false, |hosts.value|, probes.stopAt);
        Results() == PingTable(hosts.value[..n], probes) && stopFlag == (n < |hosts.value|)
      ensures arp.ArpUnavailable? && hosts.None? ==> Results() == Table(map[], []) && !stopFlag
      ensures !isScanning && found == scanResults
    {
      if arp.ArpUnavailable? {
        found := ScanNetworkPing(hosts, probes);
        return;
      }
      isScanning := true;
      stopFlag := false;
      scanResults := map[];
      hostOrder := [];
      if arp.ArpReplies? {
        var replies := arp.replies;
        var k := 0;
        while k < |replies|
          invariant 0 <= k <= |replies|
          invariant Results() == ArpTable(replies[..k], probes)
          invariant !stopFlag
        {
          var r := replies[k];
          assert replies[..k + 1][..k] == replies[..k];
          var t := Put(Results(), r.ip, DiscoveredHost(Some(r.mac), probes.hostnameOf(r.ip)));
          scanResults := t.records;
          hostOrder := t.order;
          k := k + 1;
        }
        assert replies[..k] == replies;
      }
      isScanning := false;
      found := scanResults;
    }

    /** get_scan_summary, with the clock reading passed in. */
    function GetSummary(timestamp: string): (s: Summary)
      reads this
      requires Valid()
      ensures s.totalDevices == |scanResults| == |hostOrder|
      ensures s.totalOpenPorts == OpenPortCount(hostOrder, scanResults)
      ensures s.devices == Results()
      ensures s.timestamp == timestamp && s.network == network && s.localIp == localIp && s.gateway == gateway
    {
      DistinctKeysCount(hostOrder, scanResults);
      Summary(timestamp, network, localIp, gateway, |scanResults|,
              OpenPortCount(hostOrder, scanResults), Results())
    }
  }

  // =====================================================================
  // Properties

  /** A well-formed table has as many keys as its order has entries. */
  lemma DistinctKeysCount(order: seq<string>, records: map<string, Host>)
    requires WellFormed(Table(records, order))
    ensures |records| == |order|
  {
    SetOfDistinct(order);
    assert records.Keys == set ip | ip in order;
  }

  /** Every record in a ping table is online with no ports and the default
      os; a host is recorded exactly when it is queued and answers. */
  lemma {:induction false} PingTableSpec(hosts: seq<string>, probes: Probes)
    ensures forall ip :: ip in PingTable(hosts, probes).records <==> ip in hosts && probes.responds(ip)
    ensures forall ip :: ip in PingTable(hosts, probes).records ==>
              PingTable(hosts, probes).records[ip] == DiscoveredHost(probes.macOf(ip), probes.hostnameOf(ip))
    decreases |hosts|
  {
    if hosts != [] {
      var init := hosts[..|hosts| - 1];
      PingTableSpec(init, probes);
      assert forall ip :: ip in hosts <==> ip in init || ip == hosts[|hosts| - 1];
    }
  }

  /** The queued hosts that answer a ping, in queue order. */
  function Responders(hosts: seq<string>, probes: Probes): seq<string>
  {
    if hosts == [] then []
    else
      var prev := Responders(hosts[..|hosts| - 1], probes);
      var ip := hosts[|hosts| - 1];
      if probes.responds(ip) then prev + [ip] else prev
  }

  /** Over a queue without duplicates, every answering host gets its own
      record, and the records are listed in queue order. */
  lemma {:induction false} PingTableOrder(hosts: seq<string>, probes: Probes)
    requires Distinct(hosts)
    ensures PingTable(hosts, probes).order == Responders(hosts, probes)
    decreases |hosts|
  {
    if hosts != [] {
      var init := hosts[..|hosts| - 1];
      var ip := hosts[|hosts| - 1];
      assert Distinct(init);
      PingTableOrder(init, probes);
      PingTableSpec(init, probes);
      assert ip !in init by {
        forall i | 0 <= i < |init| ensures init[i] != ip {
          assert init[i] == hosts[i];
        }
      }
    }
  }

  /** The hosts of a /24 network taken up to a stop are recorded in queue
      order, each once. */
  lemma Hosts24Order(network: string, hosts: seq<string>, n: nat, probes: Probes)
    requires exists p :: network == p + ".0/24" && hosts == Hosts24(p)
    requires n <= |hosts|
    ensures PingTable(hosts[..n], probes).order == Responders(hosts[..n], probes)
  {
    var prefix :| network == prefix + ".0/24" && hosts == Hosts24(prefix);
    Hosts24Distinct(prefix);
    assert Distinct(hosts[..n]);
    PingTableOrder(hosts[..n], probes);
  }

  /** Reply i is the last one for its address. */
  predicate LastReply(replies: seq<ArpReply>, i: int)
  {
    0 <= i < |replies| && forall j :: i < j < |replies| ==> replies[j].ip != replies[i].ip
  }

  /** One more reply adds its address to the recorded ones. */
  lemma ArpMembersStep(replies: seq<ArpReply>, init: seq<ArpReply>, prev: map<string, Host>, cur: map<string, Host>, h: Host)
    requires replies != [] && init == replies[..|replies| - 1]
    requires cur == prev[replies[|replies| - 1].ip := h]
    requires forall ip :: ip in prev <==> exists i :: 0 <= i < |init| && init[i].ip == ip
    ensures forall ip :: ip in cur <==> exists i :: 0 <= i < |replies| && replies[i].ip == ip
  {
    forall ip ensures ip in cur <==> exists i :: 0 <= i < |replies| && replies[i].ip == ip {
      if ip in prev {
        var i :| 0 <= i < |init| && init[i].ip == ip;
        assert replies[i].ip == ip;
      }
      if exists i :: 0 <= i < |replies| && replies[i].ip == ip {
        var i :| 0 <= i < |replies| && replies[i].ip == ip;
        if i < |init| {
          assert init[i].ip == ip;
        }
      }
    }
  }

  /** One more reply records a fresh online host and keeps the others so. */
  lemma ArpRecordsStep(replies: seq<ArpReply>, init: seq<ArpReply>, prev: map<string, Host>, cur: map<string, Host>,
                       h: Host, probes: Probes)
    requires replies != [] && init == replies[..|replies| - 1]
    requires cur == prev[replies[|replies| - 1].ip := h]
    requires h == DiscoveredHost(Some(replies[|replies| - 1].mac), probes.hostnameOf(replies[|replies| - 1].ip))
    requires forall ip :: ip in prev <==> exists i :: 0 <= i < |init| && init[i].ip == ip
    requires forall i :: 0 <= i < |init| ==>
              var h := prev[init[i].ip];
              h.status == Online && h.ports == map[] && h.os == NoOs && h.hostname == probes.hostnameOf(init[i].ip)
    ensures forall i :: 0 <= i < |replies| ==>
              var g := cur[replies[i].ip];
              g.status == Online && g.ports == map[] && g.os == NoOs && g.hostname == probes.hostnameOf(replies[i].ip)
  {
    forall i | 0 <= i < |replies|
      ensures var g := cur[replies[i].ip];
        g.status == Online && g.ports == map[] && g.os == NoOs && g.hostname == probes.hostnameOf(replies[i].ip)
    {
      if i < |init| {
        assert init[i] == replies[i];
      }
    }
  }

  /** Every address of an ARP reply is recorded, online, with no ports and
      the default os, under the hardware address of its own last reply. */
  lemma {:induction false} ArpTableSpec(replies: seq<ArpReply>, probes: Probes)
    ensures forall ip :: ip in ArpTable(replies, probes).records <==> exists i :: 0 <= i < |replies| && replies[i].ip == ip
    ensures forall i :: 0 <= i < |replies| ==>
              var h := ArpTable(replies, probes).records[replies[i].ip];
              h.status == Online && h.ports == map[] && h.os == NoOs && h.hostname == probes.hostnameOf(replies[i].ip)
    ensures forall i :: LastReply(replies, i) ==> ArpTable(replies, probes).records[replies[i].ip].mac == Some(replies[i].mac)
    decreases |replies|
  {
    if replies != [] {
      var init := replies[..|replies| - 1];
      ArpTableSpec(init, probes);
      var last := replies[|replies| - 1];
      var h := DiscoveredHost(Some(last.mac), probes.hostnameOf(last.ip));
      var prev, cur := ArpTable(init, probes).records, ArpTable(replies, probes).records;
      assert cur == prev[last.ip := h];
      ArpMembersStep(replies, init, prev, cur, h);
      ArpRecordsStep(replies, init, prev, cur, h, probes);
      ArpMacStep(replies, init, prev, cur, h);
    }
  }

  /** One more reply sets its own address's hardware address; an earlier
      reply's address not repeated later keeps that reply's. */
  lemma ArpMacStep(replies: seq<ArpReply>, init: seq<ArpReply>, prev: map<string, Host>, cur: map<string, Host>, h: Host)
    requires replies != [] && init == replies[..|replies| - 1]
    requires cur == prev[replies[|replies| - 1].ip := h]
    requires h.mac == Some(replies[|replies| - 1].mac)
    requires forall i :: LastReply(init, i) ==> init[i].ip in prev && prev[init[i].ip].mac == Some(init[i].mac)
    ensures forall i :: LastReply(replies, i) ==> replies[i].ip in cur && cur[replies[i].ip].mac == Some(replies[i].mac)
  {
    forall i | LastReply(replies, i)
      ensures replies[i].ip in cur && cur[replies[i].ip].mac == Some(replies[i].mac)
    {
      if i < |init| {
        LastReplyInit(replies, init, i);
      }
    }
  }

  /** A reply not repeated later in the whole list is not repeated later in
      its prefix, and differs from the final reply. */
  lemma LastReplyInit(replies: seq<ArpReply>, init: seq<ArpReply>, i: int)
    requires replies != [] && init == replies[..|replies| - 1]
    requires LastReply(replies, i) && i < |init|
    ensures LastReply(init, i)
    ensures replies[|replies| - 1].ip != init[i].ip
  {
    assert init[i] == replies[i];
    forall j | i < j < |init| ensures init[j].ip != init[i].ip {
      assert init[j] == replies[j];
    }
  }

  /** A port scan only reports ports of the requested range that answered;
      with the stop flag already set it takes nothing, and without any stop
      request it reports every answering port of the range. */
  lemma ScanPortsRange(ip: string, start: int, end: int, stopped: bool, probes: Probes)
    requires start <= end
    ensures var openOrder := OpenPorts(ip, start, start + Taken(stopped, end - start + 1, probes.stopAt), probes.isOpen);
      && (forall p :: p in openOrder ==> start <= p <= end && probes.isOpen(ip, p))
      && (stopped ==> openOrder == [])
      && (!stopped && (forall k :: 0 <= k <= end - start ==> !probes.stopAt(k)) ==>
            forall p :: start <= p <= end && probes.isOpen(ip, p) ==> p in openOrder)
  {
    var total := end - start + 1;
    var n := Taken(stopped, total, probes.stopAt);
    OpenPortsMembers(ip, start, start + n, probes.isOpen);
    assert !stopped && n < total ==> probes.stopAt(n);
  }

  /** Queue.join returns once every queued item was marked done. A worker
      marks done only the items it takes, so total - taken items stay
      unfinished after a stop. */
  predicate JoinReturns(total: nat, taken: nat)
    requires taken <= total
  {
    total - taken == 0
  }

  /** As written, the wait for the queue returns exactly when the queue is
      empty or no stop is seen at all: a stop, or a flag left set by an
      earlier scan, leaves items queued and the wait never ends. */
  lemma JoinReturnsOnlyWithoutStop(stopped: bool, total: nat, stopAt: nat -> bool)
    ensures JoinReturns(total, Taken(stopped, total, stopAt))
            <==> total == 0 || (!stopped && forall j :: 0 <= j < total ==> !stopAt(j))
  {
    var n := Taken(stopped, total, stopAt);
    if !stopped && n < total {
      assert stopAt(n);
    }
  }

  /** A port scan of 1-1024 started while the flag of an earlier stopped
      scan is still set takes no port, so its wait never returns. */
  lemma ExampleStopFlagLeftSet(stopAt: nat -> bool)
    ensures Taken(true, 1024, stopAt) == 0
    ensures !JoinReturns(1024, Taken(true, 1024, stopAt))
  {
  }

  /** The scanned record keeps its identity fields; its ports gain exactly
      the open ones, with their services; its status is online when a port
      opened and is otherwise unchanged; its os changes only with a detector
      and an open port, and then holds the detector's verdict, whose
      confidence lies in [0, 100]. */
  lemma ScannedHostSpec(before: Host, ip: string, openOrder: seq<int>, hasDetector: bool, probes: Probes)
    ensures var h := ScannedHost(before, ip, openOrder, hasDetector, probes);
      && h.mac == before.mac && h.hostname == before.hostname
      && (forall p :: p in h.ports <==> p in before.ports || p in openOrder)
      && (forall p :: p in openOrder ==> p in h.ports && h.ports[p] == ServiceName(p, probes.servDb))
      && (forall p :: p in before.ports && p !in openOrder ==> p in h.ports && h.ports[p] == before.ports[p])
      && h.status == (if openOrder == [] then before.status else Online)
      && (!(hasDetector && openOrder != []) ==> h.os == before.os)
      && (hasDetector && openOrder != [] ==>
            var d := OsDetection.OsGuess(probes.pingOutput(ip), openOrder, probes.bannerOf(ip), probes.matches);
            h.os == OsInfo(d.os, d.confidence) && 0.0 <= h.os.confidence <= 100.0)
  {
    WithOpenPortsSpec(before, openOrder, probes.servDb);
    if hasDetector && openOrder != [] {
      OsDetection.OsGuessWithPorts(probes.pingOutput(ip), openOrder, probes.bannerOf(ip), probes.matches);
    }
  }

  /** Replacing one record changes the port total by the difference of that
      record's port count. */
  lemma {:induction false} OpenPortCountPut(t: Table, ip: string, h: Host)
    requires WellFormed(t)
    ensures var r := Put(t, ip, h);
      OpenPortCount(r.order, r.records) + (if ip in t.records then |t.records[ip].ports| else 0)
      == OpenPortCount(t.order, t.records) + |h.ports|
  {
    var r := Put(t, ip, h);
    if ip in t.records {
      OpenPortCountReplace(t.order, t.records, ip, h);
    } else {
      OpenPortCountFresh(t.order, t.records, ip, h);
      assert (t.order + [ip])[..|t.order|] == t.order;
    }
  }

  lemma {:induction false} OpenPortCountFresh(order: seq<string>, records: map<string, Host>, ip: string, h: Host)
    requires forall x :: x in order ==> x in records
    requires ip !in order
    ensures OpenPortCount(order, records[ip := h]) == OpenPortCount(order, records)
    decreases |order|
  {
    if order != [] {
      OpenPortCountFresh(order[..|order| - 1], records, ip, h);
    }
  }

  lemma {:induction false} OpenPortCountReplace(order: seq<string>, records: map<string, Host>, ip: string, h: Host)
    requires forall x :: x in order ==> x in records
    requires Distinct(order) && ip in records
    ensures OpenPortCount(order, records[ip := h]) + (if ip in order then |records[ip].ports| else 0)
            == OpenPortCount(order, records) + (if ip in order then |h.ports| else 0)
    decreases |order|
  {
    if order != [] {
      var init := order[..|order| - 1];
      assert Distinct(init);
      OpenPortCountReplace(init, records, ip, h);
      assert ip in order <==> ip in init || ip == order[|order| - 1];
      assert order[|order| - 1] == ip ==> ip !in init;
    }
  }

  /** The scanned record's ports are the earlier ones plus the open ones. */
  lemma ScannedPortsKeys(before: Host, ip: string, openOrder: seq<int>, hasDetector: bool, probes: Probes)
    ensures ScannedHost(before, ip, openOrder, hasDetector, probes).ports.Keys
            == before.ports.Keys + (set p | p in openOrder)
  {
    var after := WithOpenPorts(before, openOrder, probes.servDb);
    assert ScannedHost(before, ip, openOrder, hasDetector, probes).ports == after.ports;
    WithOpenPortsSpec(before, openOrder, probes.servDb);
    forall q | q in after.ports.Keys ensures q in before.ports.Keys + (set p | p in openOrder) {
      assert q in before.ports || q in openOrder;
    }
    forall q | q in before.ports.Keys + (set p | p in openOrder) ensures q in after.ports.Keys {
      assert q in before.ports || q in openOrder;
    }
  }

  /** A disjoint union adds the sizes. */
  lemma PortCountGrowth(prev: map<int, string>, next: map<int, string>, s: set<int>)
    requires next.Keys == prev.Keys + s
    ensures |next| == |prev| + |s - prev.Keys|
  {
    var added := s - prev.Keys;
    assert next.Keys == prev.Keys + added;
    assert prev.Keys !! added;
    assert |next.Keys| == |prev.Keys| + |added|;
  }

  /** After a port scan the summary's port total grows by exactly the number
      of ports that were not yet in the scanned record. */
  lemma ScanPortsSummary(t: Table, ip: string, before: Host, openOrder: seq<int>, hasDetector: bool, probes: Probes)
    requires WellFormed(t)
    requires ip in t.records ==> before == t.records[ip]
    requires ip !in t.records ==> before.ports == map[]
    ensures var r := Put(t, ip, ScannedHost(before, ip, openOrder, hasDetector, probes));
      OpenPortCount(r.order, r.records)
      == OpenPortCount(t.order, t.records) + |(set p | p in openOrder) - before.ports.Keys|
  {
    var h := ScannedHost(before, ip, openOrder, hasDetector, probes);
    OpenPortCountPut(t, ip, h);
    ScannedPortsKeys(before, ip, openOrder, hasDetector, probes);
    PortCountGrowth(before.ports, h.ports, set p | p in openOrder);
  }
}
