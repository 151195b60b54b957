/*
 * Persistence of scan results: the JSON file of a scan, the history
 * listing of saved scans, and the CSV and text reports.
 *
 * A scan file is read back as scalar members (absent, null, a number or a
 * string) plus the devices object; the reports are modelled as the rows or
 * lines they write, including the partial file left behind when an
 * exception stops the writer.
 */
module DataManager {
  import opened Common

  // =====================================================================
  // Values

  /** A JSON scalar as Python holds it: None, an int or a str. */
  datatype Value = Null | Int(i: int) | Str(s: string)

  /** A member that holds an object: absent, JSON null, or present. */
  datatype Slot<+T> = Missing | Nulled | Filled(value: T)

  /** A device record: its scalar members (None when the key is absent) and
      its port map as (port, service) pairs in insertion order. */
  datatype Device = Device(hostname: Option<Value>, mac: Option<Value>, status: Option<Value>,
                           ports: Slot<seq<(Value, Value)>>)

  /** The devices object, address to record in insertion order; None stands
      for a value that is not an object. */
  type Devices = seq<(string, Option<Device>)>

  /** The members of a scan that the reports and the history read. */
  datatype ScanData = ScanData(timestamp: Option<Value>, network: Option<Value>, localIp: Option<Value>,
                               gateway: Option<Value>, totalDevices: Option<Value>,
                               totalOpenPorts: Option<Value>, devices: Slot<Devices>)

  const Unknown: Value := Str("Desconhecido")

  /** d.get(key, default): the default only when the key is absent. */
  function Get(field: Option<Value>, default: Value): Value
  {
    if field.Some? then field.value else default
  }

  /** str(v), as an f-string renders it. */
  function Text(v: Value): string
  {
    match v
    case Null => "None"
    case Int(i) => IntToString(i)
    case Str(s) => s
  }

  /** What the csv writer puts in a cell: None becomes the empty string. */
  function Cell(v: Value): string
  {
    if v.Null? then "" else Text(v)
  }

  /** The ports member as a map: absent and null both read as no ports. */
  function PortsOf(ports: Slot<seq<(Value, Value)>>): seq<(Value, Value)>
  {
    if ports.Filled? then ports.value else []
  }

  /** The lines (or rows) a writer left in its file, and whether it finished
      without an exception. */
  datatype Written<T> = Written(ok: bool, lines: seq<T>)

  // =====================================================================
  // The text report

  const TxtTitle: string := "=== RELATÓRIO DE VARREDURA DE REDE ==="
  const TxtDevicesTitle: string := "--- DISPOSITIVOS ENCONTRADOS ---"
  const NoPortsLine: string := "Portas Abertas: Nenhuma"
  const PortsTitle: string := "Portas Abertas:"

  /** The report's opening lines, each written with its newline. */
  function TxtHeader(d: ScanData): (lines: seq<string>)
  {
    [TxtTitle, "",
     "Data/Hora: " + Text(Get(d.timestamp, Unknown)),
     "Rede: " + Text(Get(d.network, Unknown)),
     "IP Local: " + Text(Get(d.localIp, Unknown)),
     "Gateway: " + Text(Get(d.gateway, Unknown)),
     "Total de Dispositivos: " + Text(Get(d.totalDevices, Int(0))),
     "Total de Portas Abertas: " + Text(Get(d.totalOpenPorts, Int(0))),
     "",
     TxtDevicesTitle, ""]
  }

  function PortLine(port: Value, service: Value): string
  {
    "  - " + Text(port) + ": " + Text(service)
  }

  /** One line per port, in map order. */
  function PortLines(ports: seq<(Value, Value)>): seq<string>
  {
    if ports == [] then []
    else PortLines(ports[..|ports| - 1]) + [PortLine(ports[|ports| - 1].0, ports[|ports| - 1].1)]
  }

  /** A device's block: four identity lines, the ports (or "Nenhuma" when
      the map is absent, null or empty) and a blank line. */
  function DeviceLines(ip: string, dev: Device): seq<string>
  {
    var ports := PortsOf(dev.ports);
    ["IP: " + ip,
     "Hostname: " + Text(Get(dev.hostname, Unknown)),
     "MAC: " + Text(Get(dev.mac, Unknown)),
     "Status: " + Text(Get(dev.status, Unknown))]
    + (if ports == [] then [NoPortsLine] else [PortsTitle] + PortLines(ports))
    + [""]
  }

  /** The device blocks up to the first value that is not an object, where
      the writer stops with an exception. */
  function TxtBlocks(devs: Devices): Written<string>
  {
    if devs == [] then Written(true, [])
    else
      var prev := TxtBlocks(devs[..|devs| - 1]);
      var last := devs[|devs| - 1];
      if !prev.ok || last.1.None? then Written(false, prev.lines)
      else Written(true, prev.lines + DeviceLines(last.0, last.1.value))
  }

  /** export_to_txt once the file is open: the header, then the devices;
      a null devices member stops the writer after the header. */
  function TxtExport(d: ScanData): Written<string>
  {
    match d.devices
    case Missing => Written(true, TxtHeader(d))
    case Nulled => Written(false, TxtHeader(d))
    case Filled(devs) =>
      var blocks := TxtBlocks(devs);
      Written(blocks.ok, TxtHeader(d) + blocks.lines)
  }

  /** Every device value is an object. */
  predicate AllObjects(devs: Devices)
  {
    forall i :: 0 <= i < |devs| ==> devs[i].1.Some?
  }

  /** The text report is written in full exactly when the devices member is
      not null and each device is an object. */
  predicate TxtWritable(d: ScanData)
  {
    !d.devices.Nulled? && (d.devices.Filled? ==> AllObjects(d.devices.value))
  }

  /** The ports of all object devices together. */
  function PortTotal(devs: Devices): nat
  {
    if devs == [] then 0
    else
      var last := devs[|devs| - 1];
      PortTotal(devs[..|devs| - 1]) + (if last.1.Some? then |PortsOf(last.1.value.ports)| else 0)
  }

  lemma {:induction false} PortLinesSpec(ports: seq<(Value, Value)>)
    ensures |PortLines(ports)| == |ports|
    ensures forall k :: 0 <= k < |ports| ==> PortLines(ports)[k] == PortLine(ports[k].0, ports[k].1)
    decreases |ports|
  {
    if ports != [] {
      PortLinesSpec(ports[..|ports| - 1]);
    }
  }

  /** A block has six lines plus one per port; its fifth line says
      "Nenhuma" exactly when there are no ports, and otherwise the ports
      follow it one per line in map order. */
  lemma DeviceLinesSpec(ip: string, dev: Device)
    ensures var lines, ports := DeviceLines(ip, dev), PortsOf(dev.ports);
      && |lines| == 6 + |ports|
      && lines[0] == "IP: " + ip && lines[|lines| - 1] == ""
      && (lines[4] == NoPortsLine <==> ports == [])
      && (forall k :: 0 <= k < |ports| ==> lines[5 + k] == PortLine(ports[k].0, ports[k].1))
  {
    var ports := PortsOf(dev.ports);
    PortLinesSpec(ports);
    if ports != [] {
      assert PortsTitle != NoPortsLine by { assert |PortsTitle| != |NoPortsLine|; }
    }
  }

  lemma {:induction false} TxtBlocksOk(devs: Devices)
    ensures TxtBlocks(devs).ok <==> AllObjects(devs)
    decreases |devs|
  {
    if devs != [] {
      var init := devs[..|devs| - 1];
      TxtBlocksOk(init);
      assert forall i :: 0 <= i < |init| ==> init[i] == devs[i];
    }
  }

  lemma {:induction false} TxtBlocksLength(devs: Devices)
    requires AllObjects(devs)
    ensures |TxtBlocks(devs).lines| == 6 * |devs| + PortTotal(devs)
    decreases |devs|
  {
    if devs != [] {
      var init := devs[..|devs| - 1];
      assert AllObjects(init) by {
        assert forall i :: 0 <= i < |init| ==> init[i] == devs[i];
      }
      TxtBlocksOk(init);
      TxtBlocksLength(init);
      var last := devs[|devs| - 1];
      DeviceLinesSpec(last.0, last.1.value);
    }
  }

  /** The report is complete exactly when every device is an object and the
      devices member is not null; it then has eleven header lines, six per
      device and one per open port. */
  lemma TxtExportSpec(d: ScanData)
    ensures TxtExport(d).ok <==> TxtWritable(d)
    ensures TxtExport(d).lines[..11] == TxtHeader(d)
    ensures TxtExport(d).ok ==>
      |TxtExport(d).lines| == 11 + (if d.devices.Filled? then 6 * |d.devices.value| + PortTotal(d.devices.value) else 0)
  {
    if d.devices.Filled? {
      TxtBlocksOk(d.devices.value);
      if TxtBlocks(d.devices.value).ok {
        TxtBlocksLength(d.devices.value);
      }
    }
  }

  /** Once a device value is not an object, the blocks before it are all
      the writer leaves. */
  lemma {:induction false} TxtBlocksStop(devs: Devices, i: nat, n: nat, lines: seq<string>)
    requires i < n <= |devs|
    requires TxtBlocks(devs[..i]) == Written(true, lines) && devs[i].1.None?
    ensures TxtBlocks(devs[..n]) == Written(false, lines)
    decreases n
  {
    if n > i + 1 {
      TxtBlocksStop(devs, i, n - 1, lines);
      TxtBlocksNext(devs, n - 1, false, lines);
    } else {
      TxtBlocksNext(devs, i, true, lines);
    }
  }

  /** One device past a failure, or a null entry, leaves the output as it was. */
  lemma TxtBlocksNext(devs: Devices, k: nat, ok: bool, lines: seq<string>)
    requires k < |devs|
    requires TxtBlocks(devs[..k]) == Written(ok, lines) && (!ok || devs[k].1.None?)
    ensures TxtBlocks(devs[..k + 1]) == Written(false, lines)
  {
    var pre := devs[..k + 1];
    assert pre[..k] == devs[..k];
    TxtBlocksFail(pre);
  }

  /** A failed or non-object last device leaves the earlier lines, failed. */
  lemma TxtBlocksFail(devs: Devices)
    requires devs != []
    requires !TxtBlocks(devs[..|devs| - 1]).ok || devs[|devs| - 1].1.None?
    ensures TxtBlocks(devs) == Written(false, TxtBlocks(devs[..|devs| - 1]).lines)
  {
  }

  /** Writes one device's block, the port lines in a loop. */
  method WriteDevice(lines: seq<string>, ip: string, dev: Device) returns (lines': seq<string>)
    ensures lines' == lines + DeviceLines(ip, dev)
  {
    lines' := lines + ["IP: " + ip,
                       "Hostname: " + Text(Get(dev.hostname, Unknown)),
                       "MAC: " + Text(Get(dev.mac, Unknown)),
                       "Status: " + Text(Get(dev.status, Unknown))];
    var ports := PortsOf(dev.ports);
    if ports != [] {
      lines' := lines' + [PortsTitle];
      ghost var start := lines';
      var k := 0;
      while k < |ports|
        invariant 0 <= k <= |ports|
        invariant lines' == start + PortLines(ports[..k])
      {
        assert ports[..k + 1][..k] == ports[..k];
        lines' := lines' + [PortLine(ports[k].0, ports[k].1)];
        k := k + 1;
      }
      assert ports[..k] == ports;
    } else {
      lines' := lines' + [NoPortsLine];
    }
    lines' := lines' + [""];
  }

  /** The device loop of export_to_txt: blocks are written until a device
      value is not an object. */
  method WriteDevices(header: seq<string>, devs: Devices) returns (ok: bool, lines: seq<string>)
    ensures ok == TxtBlocks(devs).ok && lines == header + TxtBlocks(devs).lines
  {
    ok := true;
    lines := header;
    var i := 0;
    while i < |devs|
      invariant 0 <= i <= |devs|
      invariant TxtBlocks(devs[..i]).ok
      invariant lines == header + TxtBlocks(devs[..i]).lines
    {
      assert devs[..i + 1][..i] == devs[..i];
      if devs[i].1.None? {
        TxtBlocksStop(devs, i, |devs|, TxtBlocks(devs[..i]).lines);
        assert devs[..|devs|] == devs;
        return false, lines;
      }
      ghost var done := TxtBlocks(devs[..i]).lines;
      ghost var block := DeviceLines(devs[i].0, devs[i].1.value);
      assert TxtBlocks(devs[..i + 1]) == Written(true, done + block);
      lines := WriteDevice(lines, devs[i].0, devs[i].1.value);
      AppendAssoc(header, done, block);
      i := i + 1;
    }
    assert devs[..i] == devs;
  }

  /** export_to_txt: nothing when the file cannot be opened; otherwise the
      file holds exactly the report's lines, and the result says whether
      the writer finished. */
  method ExportTxt(d: ScanData, openable: bool) returns (ok: bool, file: Option<seq<string>>)
    ensures !openable ==> !ok && file == None
    ensures openable ==> ok == TxtExport(d).ok && file == Some(TxtExport(d).lines)
  {
    if !openable {
      return false, None;
    }
    var lines := TxtHeader(d);
    match d.devices {
      case Missing =>
        ok := true;
      case Nulled =>
        ok := false;
      case Filled(devs) =>
        ok, lines := WriteDevices(lines, devs);
    }
    file := Some(lines);
  }

  // =====================================================================
  // The CSV export

  const CsvHeader: seq<string> := ["IP", "Hostname", "MAC", "Status", "Portas Abertas"]

  /** "port (service)" for each port, in map order. */
  function PortLabels(ports: seq<(Value, Value)>): (labels: seq<string>)
  {
    seq(|ports|, k requires 0 <= k < |ports| => Text(ports[k].0) + " (" + Text(ports[k].1) + ")")
  }

  /** A device's row; None when its ports member is null, where the writer
      stops with an exception. */
  function CsvRow(ip: string, dev: Device): Option<seq<string>>
  {
    if dev.ports.Nulled? then None
    else Some([ip, Cell(Get(dev.hostname, Unknown)), Cell(Get(dev.mac, Unknown)),
               Cell(Get(dev.status, Unknown)), Join(PortLabels(PortsOf(dev.ports)), ", ")])
  }

  /** The rows up to the first device the writer fails on. */
  function CsvBody(devs: Devices): Written<seq<string>>
  {
    if devs == [] then Written(true, [])
    else
      var prev := CsvBody(devs[..|devs| - 1]);
      var last := devs[|devs| - 1];
      if !prev.ok || last.1.None? || CsvRow(last.0, last.1.value).None? then Written(false, prev.lines)
      else Written(true, prev.lines + [CsvRow(last.0, last.1.value).value])
  }

  /** export_to_csv once the file is open: the header row, then one row per
      device; a null devices member stops the writer after the header. */
  function CsvExport(d: ScanData): Written<seq<string>>
  {
    match d.devices
    case Missing => Written(true, [CsvHeader])
    case Nulled => Written(false, [CsvHeader])
    case Filled(devs) =>
      var body := CsvBody(devs);
      Written(body.ok, [CsvHeader] + body.lines)
  }

  /** Every device is an object whose ports member is not null. */
  predicate CsvDevicesWritable(devs: Devices)
  {
    forall i :: 0 <= i < |devs| ==> devs[i].1.Some? && !devs[i].1.value.ports.Nulled?
  }

  predicate CsvWritable(d: ScanData)
  {
    !d.devices.Nulled? && (d.devices.Filled? ==> CsvDevicesWritable(d.devices.value))
  }

  lemma {:induction false} CsvBodySpec(devs: Devices)
    ensures CsvBody(devs).ok <==> CsvDevicesWritable(devs)
    ensures CsvBody(devs).ok ==> |CsvBody(devs).lines| == |devs|
    ensures CsvBody(devs).ok ==> forall i :: 0 <= i < |devs| ==>
      CsvBody(devs).lines[i] == CsvRow(devs[i].0, devs[i].1.value).value
  {
    CsvBodyOk(devs);
    if CsvDevicesWritable(devs) {
      CsvBodyRows(devs);
    }
  }

  lemma {:induction false} CsvBodyOk(devs: Devices)
    ensures CsvBody(devs).ok <==> CsvDevicesWritable(devs)
    ensures CsvBody(devs).ok ==> |CsvBody(devs).lines| == |devs|
    decreases |devs|
  {
    if devs != [] {
      var init := devs[..|devs| - 1];
      CsvBodyOk(init);
      assert forall i :: 0 <= i < |init| ==> init[i] == devs[i];
    }
  }

  lemma {:induction false} CsvBodyRows(devs: Devices)
    requires CsvDevicesWritable(devs)
    ensures |CsvBody(devs).lines| == |devs|
    ensures forall i :: 0 <= i < |devs| ==> CsvBody(devs).lines[i] == CsvRow(devs[i].0, devs[i].1.value).value
    decreases |devs|
  {
    CsvBodyOk(devs);
    if devs != [] {
      var init := devs[..|devs| - 1];
      assert forall i :: 0 <= i < |init| ==> init[i] == devs[i];
      CsvBodyRows(init);
    }
  }

  /** A ports cell is empty exactly when the device has no ports. */
  lemma PortsCellEmpty(ports: seq<(Value, Value)>)
    ensures Join(PortLabels(ports), ", ") == "" <==> ports == []
  {
    var labels := PortLabels(ports);
    forall k | 0 <= k < |labels| ensures labels[k] != "" {
      assert |labels[k]| >= 2;
    }
    JoinEmptyOnlyIfPartsEmpty(labels, ", ");
  }

  /** The CSV is complete exactly when the devices member is not null and
      every device is an object with a non-null ports member. It then holds
      the header and one five-cell row per device, in order, starting with
      the device's address and ending with an empty cell exactly when the
      device has no ports. */
  lemma CsvExportSpec(d: ScanData)
    ensures CsvExport(d).ok <==> CsvWritable(d)
    ensures CsvExport(d).lines[0] == CsvHeader
    ensures CsvExport(d).ok && d.devices.Filled? ==>
      var devs, rows := d.devices.value, CsvExport(d).lines;
      && |rows| == |devs| + 1
      && forall i :: 0 <= i < |devs| ==>
           && |rows[i + 1]| == 5 && rows[i + 1][0] == devs[i].0
           && (rows[i + 1][4] == "" <==> PortsOf(devs[i].1.value.ports) == [])
    ensures CsvExport(d).ok && d.devices.Missing? ==> CsvExport(d).lines == [CsvHeader]
  {
    if d.devices.Filled? {
      var devs := d.devices.value;
      CsvBodySpec(devs);
      if CsvBody(devs).ok {
        CsvRowsSpec(devs, CsvExport(d).lines);
      }
    }
  }

  lemma CsvRowsSpec(devs: Devices, rows: seq<seq<string>>)
    requires CsvDevicesWritable(devs) && rows == [CsvHeader] + CsvBody(devs).lines
    ensures |rows| == |devs| + 1
    ensures forall i :: 0 <= i < |devs| ==>
      && |rows[i + 1]| == 5 && rows[i + 1][0] == devs[i].0
      && (rows[i + 1][4] == "" <==> PortsOf(devs[i].1.value.ports) == [])
  {
    CsvBodySpec(devs);
    var lines := CsvBody(devs).lines;
    forall i | 0 <= i < |devs|
      ensures |rows[i + 1]| == 5 && rows[i + 1][0] == devs[i].0
      ensures rows[i + 1][4] == "" <==> PortsOf(devs[i].1.value.ports) == []
    {
      assert rows[i + 1] == lines[i];
      CsvLineSpec(devs, i);
    }
  }

  /** The line written for device i has the shape of its row. */
  lemma CsvLineSpec(devs: Devices, i: nat)
    requires CsvDevicesWritable(devs) && i < |devs|
    ensures var lines := CsvBody(devs).lines;
      i < |lines| && |lines[i]| == 5 && lines[i][0] == devs[i].0
      && (lines[i][4] == "" <==> PortsOf(devs[i].1.value.ports) == [])
  {
    CsvBodySpec(devs);
    CsvRowSpec(devs[i].0, devs[i].1.value);
  }

  /** A row has five cells, starts with the address and ends with an empty
      cell exactly when the device has no ports. */
  lemma CsvRowSpec(ip: string, dev: Device)
    requires !dev.ports.Nulled?
    ensures var row := CsvRow(ip, dev).value;
      |row| == 5 && row[0] == ip && (row[4] == "" <==> PortsOf(dev.ports) == [])
  {
    PortsCellEmpty(PortsOf(dev.ports));
  }

  /** The CSV writer is the stricter one: whenever it finishes, so does the
      text writer (which reads a null ports member as no ports). */
  lemma CsvCompleteImpliesTxtComplete(d: ScanData)
    requires CsvExport(d).ok
    ensures TxtExport(d).ok
  {
    CsvExportSpec(d);
    TxtExportSpec(d);
    if d.devices.Filled? {
      var devs := d.devices.value;
      assert CsvDevicesWritable(devs);
      assert AllObjects(devs);
    }
  }

  /** A device whose ports member is null: the text report lists it with
      "Nenhuma", while the CSV writer fails before writing its row. */
  lemma NullPortsSplitTheWriters()
    ensures var d := ScanData(None, None, None, None, None, None,
                              Filled([("10.0.0.1", Some(Device(None, None, None, Nulled)))]));
      && TxtExport(d).ok && NoPortsLine in TxtExport(d).lines
      && !CsvExport(d).ok && CsvExport(d).lines == [CsvHeader]
  {
    var dev := Device(None, None, None, Nulled);
    var devs := [("10.0.0.1", Some(dev))];
    assert devs[..0] == [];
    assert DeviceLines("10.0.0.1", dev)[4] == NoPortsLine;
  }

  /** Lemma about one step of the CSV writer's stop, as for the text writer. */
  lemma {:induction false} CsvBodyStop(devs: Devices, i: nat, n: nat, rows: seq<seq<string>>)
    requires i < n <= |devs|
    requires CsvBody(devs[..i]) == Written(true, rows)
    requires devs[i].1.None? || CsvRow(devs[i].0, devs[i].1.value).None?
    ensures CsvBody(devs[..n]) == Written(false, rows)
    decreases n
  {
    if n > i + 1 {
      CsvBodyStop(devs, i, n - 1, rows);
      CsvBodyNext(devs, n - 1, false, rows);
    } else {
      CsvBodyNext(devs, i, true, rows);
    }
  }

  /** One device past a failure, or one the writer cannot write, leaves the
      output as it was. */
  lemma CsvBodyNext(devs: Devices, k: nat, ok: bool, rows: seq<seq<string>>)
    requires k < |devs|
    requires CsvBody(devs[..k]) == Written(ok, rows)
    requires !ok || devs[k].1.None? || CsvRow(devs[k].0, devs[k].1.value).None?
    ensures CsvBody(devs[..k + 1]) == Written(false, rows)
  {
    var pre := devs[..k + 1];
    assert pre[..k] == devs[..k];
    CsvBodyFail(pre);
  }

  /** A failed writer, or a last device it cannot write, leaves the earlier
      rows, failed. */
  lemma CsvBodyFail(devs: Devices)
    requires devs != []
    requires var last := devs[|devs| - 1];
      !CsvBody(devs[..|devs| - 1]).ok || last.1.None? || CsvRow(last.0, last.1.value).None?
    ensures CsvBody(devs) == Written(false, CsvBody(devs[..|devs| - 1]).lines)
  {
  }

  /** export_to_csv: nothing when the file cannot be opened; otherwise the
      file holds exactly the rows written, and the result says whether the
      writer finished. */
  /** Builds one device's row, the port labels in a loop. */
  method RowOf(ip: string, dev: Device) returns (row: seq<string>)
    requires !dev.ports.Nulled?
    ensures CsvRow(ip, dev) == Some(row)
  {
    var labels := [];
    var ports := PortsOf(dev.ports);
    var k := 0;
    while k < |ports|
      invariant 0 <= k <= |ports|
      invariant labels == PortLabels(ports[..k])
    {
      labels := labels + [Text(ports[k].0) + " (" + Text(ports[k].1) + ")"];
      k := k + 1;
      assert labels == PortLabels(ports[..k]) by {
        assert forall j :: 0 <= j < k ==> ports[..k][j] == ports[j];
      }
    }
    assert ports[..k] == ports;
    row := [ip, Cell(Get(dev.hostname, Unknown)), Cell(Get(dev.mac, Unknown)),
            Cell(Get(dev.status, Unknown)), Join(labels, ", ")];
  }

  /** A device the writer can write adds its row to a writer still going. */
  lemma CsvBodyGrow(devs: Devices, k: nat, rows: seq<seq<string>>, row: seq<string>)
    requires k < |devs| && devs[k].1.Some?
    requires CsvBody(devs[..k]) == Written(true, rows)
    requires CsvRow(devs[k].0, devs[k].1.value) == Some(row)
    ensures CsvBody(devs[..k + 1]) == Written(true, rows + [row])
  {
    assert devs[..k + 1][..k] == devs[..k];
  }

  method ExportCsv(d: ScanData, openable: bool) returns (ok: bool, file: Option<seq<seq<string>>>)
    ensures !openable ==> !ok && file == None
    ensures openable ==> ok == CsvExport(d).ok && file == Some(CsvExport(d).lines)
  {
    if !openable {
      return false, None;
    }
    var rows := [CsvHeader];
    match d.devices {
      case Missing =>
        ok := true;
      case Nulled =>
        ok := false;
      case Filled(devs) =>
        ok := true;
        var i := 0;
        while i < |devs|
          invariant 0 <= i <= |devs|
          invariant CsvBody(devs[..i]).ok
          invariant rows == [CsvHeader] + CsvBody(devs[..i]).lines
        {
          if devs[i].1.None? || devs[i].1.value.ports.Nulled? {
            CsvBodyStop(devs, i, |devs|, CsvBody(devs[..i]).lines);
            assert devs[..|devs|] == devs;
            ok := false;
            break;
          }
          ghost var body := CsvBody(devs[..i]).lines;
          var row := RowOf(devs[i].0, devs[i].1.value);
          CsvBodyGrow(devs, i, body, row);
          AppendAssoc([CsvHeader], body, [row]);
          rows := rows + [row];
          i := i + 1;
        }
        assert ok ==> devs[..i] == devs;
        assert ok == CsvBody(devs).ok && rows == [CsvHeader] + CsvBody(devs).lines;
    }
    file := Some(rows);
  }

  // =====================================================================
  // The history listing

  /** A file of the history directory as json.load sees it: a scan object,
      or something that fails to read or parse. */
  datatype Stored = ScanFile(data: ScanData) | Unreadable

  /** One history entry: the file name and four members, with defaults. */
  datatype HistoryEntry = HistoryEntry(filename: string, timestamp: Value, network: Value,
                                       totalDevices: Value, totalOpenPorts: Value)

  function Info(filename: string, d: ScanData): HistoryEntry
  {
    HistoryEntry(filename, Get(d.timestamp, Unknown), Get(d.network, Unknown),
                 Get(d.totalDevices, Int(0)), Get(d.totalOpenPorts, Int(0)))
  }

  predicate IsJsonName(name: string)
  {
    |name| >= 5 && name[|name| - 5..] == ".json"
  }

  /** The entries of the listed files whose names end in ".json" and that
      read as scan objects, in listing order; the others are skipped. */
  function Collect(listing: seq<string>, files: map<string, Stored>): seq<HistoryEntry>
    requires forall name :: name in listing ==> name in files
  {
    if listing == [] then []
    else
      var prev := Collect(listing[..|listing| - 1], files);
      var name := listing[|listing| - 1];
      if IsJsonName(name) && files[name].ScanFile? then prev + [Info(name, files[name].data)] else prev
  }

  /** A listed file yields an entry exactly when its name ends in ".json"
      and it reads as a scan; the entry carries its members with the
      defaults. */
  lemma {:induction false} CollectSpec(listing: seq<string>, files: map<string, Stored>)
    requires forall name :: name in listing ==> name in files
    ensures forall e :: e in Collect(listing, files) ==>
      e.filename in listing && IsJsonName(e.filename) && files[e.filename].ScanFile?
      && e == Info(e.filename, files[e.filename].data)
    ensures forall name :: name in listing && IsJsonName(name) && files[name].ScanFile? ==>
      Info(name, files[name].data) in Collect(listing, files)
    decreases |listing|
  {
    if listing != [] {
      var init := listing[..|listing| - 1];
      CollectSpec(init, files);
      assert forall name :: name in listing <==> name in init || name == listing[|listing| - 1];
    }
  }

  // ---------------------------------------------------------------------
  // Python's order on the timestamps

  /** a < b as Python compares two strings or two ints; values of different
      kinds, and None, have no order (comparing them raises). */
  predicate KeyLess(a: Value, b: Value)
  {
    (a.Str? && b.Str? && StrLess(a.s, b.s)) || (a.Int? && b.Int? && a.i < b.i)
  }

  /** The timestamps can be sorted: at most one entry (no comparison is
      made), or all strings, or all ints. */
  predicate Orderable(s: seq<HistoryEntry>)
  {
    |s| <= 1
    || (forall i :: 0 <= i < |s| ==> s[i].timestamp.Str?)
    || (forall i :: 0 <= i < |s| ==> s[i].timestamp.Int?)
  }

  predicate SameKind(a: Value, b: Value)
  {
    (a.Str? && b.Str?) || (a.Int? && b.Int?)
  }

  lemma KeyLessIrreflexive(a: Value)
    ensures !KeyLess(a, a)
  {
    if a.Str? { StrLessIrreflexive(a.s); }
  }

  lemma KeyLessTransitive(a: Value, b: Value, c: Value)
    requires KeyLess(a, b) && KeyLess(b, c)
    ensures KeyLess(a, c)
  {
    if a.Str? { StrLessTransitive(a.s, b.s, c.s); }
  }

  lemma KeyLessTotal(a: Value, b: Value)
    requires SameKind(a, b)
    ensures a == b || KeyLess(a, b) || KeyLess(b, a)
  {
    if a.Str? { StrLessTotal(a.s, b.s); }
  }

  // ---------------------------------------------------------------------
  // history.sort(key=timestamp, reverse=True)

  /** x placed after every entry whose timestamp is not below its own. */
  function Insert(sorted: seq<HistoryEntry>, x: HistoryEntry): (r: seq<HistoryEntry>)
    ensures multiset(r) == multiset(sorted) + multiset{x}
  {
    if sorted == [] then [x]
    else if KeyLess(sorted[0].timestamp, x.timestamp) then [x] + sorted
    else
      assert sorted == [sorted[0]] + sorted[1..];
      [sorted[0]] + Insert(sorted[1..], x)
  }

  /** The stable sort, newest first: each entry in turn inserted after the
      earlier ones that are not older. */
  function SortNewestFirst(s: seq<HistoryEntry>): (r: seq<HistoryEntry>)
    ensures multiset(r) == multiset(s)
  {
    if s == [] then []
    else
      assert s == s[..|s| - 1] + [s[|s| - 1]];
      Insert(SortNewestFirst(s[..|s| - 1]), s[|s| - 1])
  }

  /** No entry is followed by a newer one. */
  predicate NewestFirst(r: seq<HistoryEntry>)
  {
    forall i, j :: 0 <= i < j < |r| ==> !KeyLess(r[i].timestamp, r[j].timestamp)
  }

  /** All timestamps are strings, or all are ints. */
  predicate Uniform(s: seq<HistoryEntry>)
  {
    (forall i :: 0 <= i < |s| ==> s[i].timestamp.Str?) || (forall i :: 0 <= i < |s| ==> s[i].timestamp.Int?)
  }

  /** The entries whose timestamp equals k, in order. */
  function WithTimestamp(s: seq<HistoryEntry>, k: Value): seq<HistoryEntry>
  {
    if s == [] then []
    else WithTimestamp(s[..|s| - 1], k) + (if s[|s| - 1].timestamp == k then [s[|s| - 1]] else [])
  }

  lemma {:induction false} WithTimestampCons(x: HistoryEntry, s: seq<HistoryEntry>, k: Value)
    ensures WithTimestamp([x] + s, k) == (if x.timestamp == k then [x] else []) + WithTimestamp(s, k)
    decreases |s|
  {
    if s != [] {
      var init := s[..|s| - 1];
      assert ([x] + s)[..|s|] == [x] + init;
      WithTimestampCons(x, init, k);
    }
  }

  lemma {:induction false} WithTimestampNone(s: seq<HistoryEntry>, k: Value)
    requires forall i :: 0 <= i < |s| ==> s[i].timestamp != k
    ensures WithTimestamp(s, k) == []
    decreases |s|
  {
    if s != [] {
      WithTimestampNone(s[..|s| - 1], k);
    }
  }

  /** In a sorted sequence, an entry below the first is below them all. */
  lemma {:induction false} BelowAll(sorted: seq<HistoryEntry>, x: HistoryEntry)
    requires NewestFirst(sorted) && sorted != []
    requires forall i :: 0 <= i < |sorted| ==> SameKind(sorted[i].timestamp, x.timestamp)
    requires KeyLess(sorted[0].timestamp, x.timestamp)
    ensures forall i :: 0 <= i < |sorted| ==> KeyLess(sorted[i].timestamp, x.timestamp)
  {
    forall i | 0 <= i < |sorted| ensures KeyLess(sorted[i].timestamp, x.timestamp) {
      if i > 0 {
        KeyLessTotal(sorted[i].timestamp, sorted[0].timestamp);
        if sorted[i].timestamp != sorted[0].timestamp {
          KeyLessTransitive(sorted[i].timestamp, sorted[0].timestamp, x.timestamp);
        }
      }
    }
  }

  /** Insertion keeps a sorted sequence sorted. */
  lemma {:induction false} InsertSorted(sorted: seq<HistoryEntry>, x: HistoryEntry)
    requires NewestFirst(sorted)
    requires forall i :: 0 <= i < |sorted| ==> SameKind(sorted[i].timestamp, x.timestamp)
    ensures NewestFirst(Insert(sorted, x))
    decreases |sorted|
  {
    if sorted == [] {
    } else if KeyLess(sorted[0].timestamp, x.timestamp) {
      InsertFrontSorted(sorted, x);
    } else {
      var tail := sorted[1..];
      assert NewestFirst(tail);
      InsertSorted(tail, x);
      InsertBehindSorted(sorted, x);
    }
  }

  /** x in front of a sorted sequence that is all below it. */
  lemma InsertFrontSorted(sorted: seq<HistoryEntry>, x: HistoryEntry)
    requires NewestFirst(sorted) && sorted != []
    requires forall i :: 0 <= i < |sorted| ==> SameKind(sorted[i].timestamp, x.timestamp)
    requires KeyLess(sorted[0].timestamp, x.timestamp)
    ensures NewestFirst([x] + sorted)
  {
    BelowAll(sorted, x);
    var r := [x] + sorted;
    forall i, j | 0 <= i < j < |r| ensures !KeyLess(r[i].timestamp, r[j].timestamp) {
      if i == 0 {
        assert KeyLess(r[j].timestamp, x.timestamp);
        if KeyLess(x.timestamp, r[j].timestamp) {
          KeyLessTransitive(x.timestamp, r[j].timestamp, x.timestamp);
          KeyLessIrreflexive(x.timestamp);
        }
      } else {
        assert r[i] == sorted[i - 1] && r[j] == sorted[j - 1];
      }
    }
  }

  /** Nothing inserted behind a head that is not older than x is newer than
      that head. */
  lemma HeadNotBelowInsert(sorted: seq<HistoryEntry>, x: HistoryEntry)
    requires NewestFirst(sorted) && sorted != []
    requires !KeyLess(sorted[0].timestamp, x.timestamp)
    ensures forall e :: e in Insert(sorted[1..], x) ==> !KeyLess(sorted[0].timestamp, e.timestamp)
  {
    var tail := sorted[1..];
    forall e | e in Insert(tail, x) ensures !KeyLess(sorted[0].timestamp, e.timestamp) {
      assert e in multiset(Insert(tail, x));
      if e in multiset(tail) {
        var m :| 0 <= m < |tail| && tail[m] == e;
        assert sorted[m + 1] == e;
      }
    }
  }

  /** The head kept in front of a sorted insertion into the tail. */
  lemma InsertBehindSorted(sorted: seq<HistoryEntry>, x: HistoryEntry)
    requires NewestFirst(sorted) && sorted != []
    requires !KeyLess(sorted[0].timestamp, x.timestamp)
    requires NewestFirst(Insert(sorted[1..], x))
    ensures NewestFirst(Insert(sorted, x))
  {
    var rest := Insert(sorted[1..], x);
    HeadNotBelowInsert(sorted, x);
    ConsNewestFirst(sorted[0], rest);
    assert Insert(sorted, x) == [sorted[0]] + rest;
  }

  /** An entry no older than any of a newest-first list may go in front. */
  lemma ConsNewestFirst(h: HistoryEntry, rest: seq<HistoryEntry>)
    requires NewestFirst(rest)
    requires forall e :: e in rest ==> !KeyLess(h.timestamp, e.timestamp)
    ensures NewestFirst([h] + rest)
  {
    var r := [h] + rest;
    forall i, j | 0 <= i < j < |r| ensures !KeyLess(r[i].timestamp, r[j].timestamp) {
      assert r[j] == rest[j - 1] && r[j] in rest;
      if 0 < i {
        assert r[i] == rest[i - 1];
      }
    }
  }

  /** Insertion places x after every entry with the same timestamp, so the
      entries with any one timestamp keep their order. */
  lemma {:induction false} InsertStable(sorted: seq<HistoryEntry>, x: HistoryEntry, k: Value)
    requires NewestFirst(sorted)
    requires forall i :: 0 <= i < |sorted| ==> SameKind(sorted[i].timestamp, x.timestamp)
    ensures WithTimestamp(Insert(sorted, x), k) == WithTimestamp(sorted, k) + (if x.timestamp == k then [x] else [])
    decreases |sorted|
  {
    if sorted == [] {
      assert [x][..0] == [];
    } else if KeyLess(sorted[0].timestamp, x.timestamp) {
      InsertFrontStable(sorted, x, k);
    } else {
      var tail := sorted[1..];
      assert NewestFirst(tail);
      InsertStable(tail, x, k);
      InsertBehindStable(sorted, x, k);
    }
  }

  lemma InsertFrontStable(sorted: seq<HistoryEntry>, x: HistoryEntry, k: Value)
    requires NewestFirst(sorted) && sorted != []
    requires forall i :: 0 <= i < |sorted| ==> SameKind(sorted[i].timestamp, x.timestamp)
    requires KeyLess(sorted[0].timestamp, x.timestamp)
    ensures WithTimestamp([x] + sorted, k) == WithTimestamp(sorted, k) + (if x.timestamp == k then [x] else [])
  {
    WithTimestampCons(x, sorted, k);
    if x.timestamp == k {
      BelowAll(sorted, x);
      forall i | 0 <= i < |sorted| ensures sorted[i].timestamp != k {
        KeyLessIrreflexive(x.timestamp);
      }
      WithTimestampNone(sorted, k);
    }
  }

  lemma InsertBehindStable(sorted: seq<HistoryEntry>, x: HistoryEntry, k: Value)
    requires sorted != [] && !KeyLess(sorted[0].timestamp, x.timestamp)
    requires WithTimestamp(Insert(sorted[1..], x), k)
             == WithTimestamp(sorted[1..], k) + (if x.timestamp == k then [x] else [])
    ensures WithTimestamp(Insert(sorted, x), k) == WithTimestamp(sorted, k) + (if x.timestamp == k then [x] else [])
  {
    var tail := sorted[1..];
    var rest := Insert(tail, x);
    var h := if sorted[0].timestamp == k then [sorted[0]] else [];
    var xs := if x.timestamp == k then [x] else [];
    var r := Insert(sorted, x);
    assert r == [sorted[0]] + rest;
    WithTimestampCons(sorted[0], rest, k);
    assert WithTimestamp(r, k) == h + WithTimestamp(rest, k);
    assert WithTimestamp(rest, k) == WithTimestamp(tail, k) + xs;
    HeadTail(sorted);
    WithTimestampCons(sorted[0], tail, k);
    AppendAssoc(h, WithTimestamp(tail, k), xs);
  }

  /** The sort puts no entry before a newer one, and entries with the same
      timestamp keep their listing order (the sort is stable). */
  lemma {:induction false} SortSpec(s: seq<HistoryEntry>)
    requires Uniform(s)
    ensures NewestFirst(SortNewestFirst(s))
    ensures forall k :: WithTimestamp(SortNewestFirst(s), k) == WithTimestamp(s, k)
    decreases |s|
  {
    if s != [] {
      var init, last := s[..|s| - 1], s[|s| - 1];
      assert Uniform(init) by {
        assert forall i :: 0 <= i < |init| ==> init[i] == s[i];
      }
      SortSpec(init);
      var prev := SortNewestFirst(init);
      forall i | 0 <= i < |prev| ensures SameKind(prev[i].timestamp, last.timestamp) {
        assert prev[i] in multiset(init);
        var m :| 0 <= m < |init| && init[m] == prev[i];
        assert s[m] == prev[i];
      }
      InsertSorted(prev, last);
      forall k ensures WithTimestamp(SortNewestFirst(s), k) == WithTimestamp(s, k) {
        InsertStable(prev, last, k);
      }
    }
  }

  /** get_scan_history: an empty list when the directory is missing; the
      collected entries sorted newest first; an error (Python raises
      TypeError) when two or more entries have timestamps that cannot be
      compared. */
  function History(dirExists: bool, listing: seq<string>, files: map<string, Stored>): Result<seq<HistoryEntry>>
    requires forall name :: name in listing ==> name in files
  {
    if !dirExists then Ok([])
    else
      var entries := Collect(listing, files);
      if Orderable(entries) then Ok(SortNewestFirst(entries)) else Err("TypeError")
  }

  /** The listing fails exactly when the directory exists and two or more
      collected timestamps are not all strings or all ints; otherwise it is
      a newest-first, stable reordering of the collected entries. */
  lemma HistorySpec(dirExists: bool, listing: seq<string>, files: map<string, Stored>)
    requires forall name :: name in listing ==> name in files
    ensures History(dirExists, listing, files).Err? <==> dirExists && !Orderable(Collect(listing, files))
    ensures !dirExists ==> History(dirExists, listing, files) == Ok([])
    ensures var h := History(dirExists, listing, files);
      h.Ok? ==>
        && NewestFirst(h.value)
        && (dirExists ==> multiset(h.value) == multiset(Collect(listing, files)))
        && (dirExists ==> forall k :: WithTimestamp(h.value, k) == WithTimestamp(Collect(listing, files), k))
  {
    var entries := Collect(listing, files);
    if dirExists && Orderable(entries) {
      OrderedHistory(entries);
    }
  }

  /** Sorting entries the listing can order gives them newest first, and
      entries with equal timestamps keep their relative order. */
  lemma OrderedHistory(entries: seq<HistoryEntry>)
    requires Orderable(entries)
    ensures NewestFirst(SortNewestFirst(entries))
    ensures forall k :: WithTimestamp(SortNewestFirst(entries), k) == WithTimestamp(entries, k)
  {
    if |entries| == 1 {
      assert entries == [] + [entries[0]];
      assert SortNewestFirst(entries) == entries;
    } else if |entries| > 1 {
      SortSpec(entries);
    }
  }

  // =====================================================================
  // Timestamps and file names

  /** The clock reading that datetime.now() supplies. */
  datatype DateTime = DateTime(year: int, month: int, day: int, hour: int, minute: int, second: int)

  predicate ValidDateTime(t: DateTime)
  {
    && 1000 <= t.year <= 9999 && 1 <= t.month <= 12 && 1 <= t.day <= 31
    && 0 <= t.hour <= 23 && 0 <= t.minute <= 59 && 0 <= t.second <= 59
  }

  /** a is strictly before b. */
  predicate Earlier(a: DateTime, b: DateTime)
  {
    a.year < b.year || (a.year == b.year &&
    (a.month < b.month || (a.month == b.month &&
    (a.day < b.day || (a.day == b.day &&
    (a.hour < b.hour || (a.hour == b.hour &&
    (a.minute < b.minute || (a.minute == b.minute && a.second < b.second)))))))))
  }

  /** Two zero-padded decimal digits. */
  function Pad2(n: int): (s: string)
    requires 0 <= n < 100
    ensures |s| == 2
  {
    [DigitChar(n / 10), DigitChar(n % 10)]
  }

  /** Four zero-padded decimal digits. */
  function Pad4(n: int): (s: string)
    requires 0 <= n < 10000
    ensures |s| == 4
  {
    Pad2(n / 100) + Pad2(n % 100)
  }

  /** strftime("%H:%M:%S") */
  function ClockText(t: DateTime): (s: string)
    requires ValidDateTime(t)
    ensures |s| == 8
  {
    Pad2(t.hour) + (":" + (Pad2(t.minute) + (":" + Pad2(t.second))))
  }

  /** strftime("%Y-%m-%d %H:%M:%S"), the timestamp a save adds. */
  function Stamp(t: DateTime): (s: string)
    requires ValidDateTime(t)
    ensures |s| == 19
  {
    Pad4(t.year) + ("-" + (Pad2(t.month) + ("-" + (Pad2(t.day) + (" " + ClockText(t))))))
  }

  /** strftime("%Y%m%d_%H%M%S") */
  function FileStamp(t: DateTime): (s: string)
    requires ValidDateTime(t)
    ensures |s| == 15
  {
    Pad4(t.year) + Pad2(t.month) + Pad2(t.day) + "_" + Pad2(t.hour) + Pad2(t.minute) + Pad2(t.second)
  }

  /** The name a save picks when none is given. */
  function DefaultFilename(t: DateTime): (name: string)
    requires ValidDateTime(t)
    ensures |name| == 25 && name[..5] == "scan_" && name[5..20] == FileStamp(t) && IsJsonName(name)
  {
    assert ("scan_" + FileStamp(t) + ".json")[20..] == ".json";
    assert ("scan_" + FileStamp(t) + ".json")[5..20] == FileStamp(t);
    "scan_" + FileStamp(t) + ".json"
  }

  /** The file name of a save: the one given, or the clock's default,
      which the history listing picks up. */
  function SaveName(filename: Option<string>, fileClock: DateTime): (name: string)
    requires ValidDateTime(fileClock)
    ensures filename.Some? ==> name == filename.value
    ensures filename.None? ==> name == DefaultFilename(fileClock) && IsJsonName(name)
  {
    if filename.Some? then filename.value else DefaultFilename(fileClock)
  }

  /** Comparing two strings that start with pieces of the same length: the
      pieces decide, and only equal pieces hand over to the rest. */
  lemma {:induction false} StrLessAppend(p: string, q: string, x: string, y: string)
    requires |p| == |q|
    ensures StrLess(p + x, q + y) <==> StrLess(p, q) || (p == q && StrLess(x, y))
    ensures p + x == q + y <==> p == q && x == y
    decreases |p|
  {
    if p != [] {
      assert (p + x)[1..] == p[1..] + x && (q + y)[1..] == q[1..] + y;
      StrLessAppend(p[1..], q[1..], x, y);
      assert p == [p[0]] + p[1..] && q == [q[0]] + q[1..];
      if p + x == q + y {
        assert p[0] == (p + x)[0];
      }
    } else {
      assert p + x == x && q + y == y;
    }
  }

  lemma Pad2Order(m: int, n: int)
    requires 0 <= m < 100 && 0 <= n < 100
    ensures StrLess(Pad2(m), Pad2(n)) <==> m < n
    ensures Pad2(m) == Pad2(n) <==> m == n
  {
    var a, b := Pad2(m), Pad2(n);
    assert a[1..] == [a[1]] && b[1..] == [b[1]];
    assert StrLess([a[1]], [b[1]]) <==> a[1] < b[1] by {
      assert [a[1]][1..] == [] && [b[1]][1..] == [];
    }
    if a == b {
      assert m / 10 == n / 10 && m % 10 == n % 10;
    }
  }

  lemma Pad4Order(m: int, n: int)
    requires 0 <= m < 10000 && 0 <= n < 10000
    ensures StrLess(Pad4(m), Pad4(n)) <==> m < n
    ensures Pad4(m) == Pad4(n) <==> m == n
  {
    StrLessAppend(Pad2(m / 100), Pad2(n / 100), Pad2(m % 100), Pad2(n % 100));
    Pad2Order(m / 100, n / 100);
    Pad2Order(m % 100, n % 100);
  }

  /** A separator shared by both strings does not change their order. */
  lemma SeparatorOrder(sep: string, x: string, y: string)
    ensures StrLess(sep + x, sep + y) <==> StrLess(x, y)
    ensures sep + x == sep + y <==> x == y
  {
    StrLessAppend(sep, sep, x, y);
    StrLessIrreflexive(sep);
  }

  lemma ClockTextOrder(a: DateTime, b: DateTime)
    requires ValidDateTime(a) && ValidDateTime(b)
    ensures StrLess(ClockText(a), ClockText(b)) <==>
      a.hour < b.hour || (a.hour == b.hour && (a.minute < b.minute || (a.minute == b.minute && a.second < b.second)))
    ensures ClockText(a) == ClockText(b) <==> a.hour == b.hour && a.minute == b.minute && a.second == b.second
  {
    Pad2Order(a.second, b.second);
    SeparatorOrder(":", Pad2(a.second), Pad2(b.second));
    Pad2Order(a.minute, b.minute);
    StrLessAppend(Pad2(a.minute), Pad2(b.minute), ":" + Pad2(a.second), ":" + Pad2(b.second));
    var ra, rb := Pad2(a.minute) + (":" + Pad2(a.second)), Pad2(b.minute) + (":" + Pad2(b.second));
    SeparatorOrder(":", ra, rb);
    Pad2Order(a.hour, b.hour);
    StrLessAppend(Pad2(a.hour), Pad2(b.hour), ":" + ra, ":" + rb);
  }

  /** The saved timestamps sort as the times they record: one string is
      below another exactly when its time is earlier, and equal exactly
      when the times are. So a newest-first sort of such timestamps puts
      the most recent scan first. */
  lemma StampOrder(a: DateTime, b: DateTime)
    requires ValidDateTime(a) && ValidDateTime(b)
    ensures StrLess(Stamp(a), Stamp(b)) <==> Earlier(a, b)
    ensures Stamp(a) == Stamp(b) <==> a == b
  {
    ClockTextOrder(a, b);
    SeparatorOrder(" ", ClockText(a), ClockText(b));
    var da, db := " " + ClockText(a), " " + ClockText(b);
    Pad2Order(a.day, b.day);
    StrLessAppend(Pad2(a.day), Pad2(b.day), da, db);
    var ea, eb := Pad2(a.day) + da, Pad2(b.day) + db;
    SeparatorOrder("-", ea, eb);
    Pad2Order(a.month, b.month);
    StrLessAppend(Pad2(a.month), Pad2(b.month), "-" + ea, "-" + eb);
    var fa, fb := Pad2(a.month) + ("-" + ea), Pad2(b.month) + ("-" + eb);
    SeparatorOrder("-", fa, fb);
    Pad4Order(a.year, b.year);
    StrLessAppend(Pad4(a.year), Pad4(b.year), "-" + fa, "-" + fb);
  }

  /** Entries whose timestamps were added by saves come out of the sort
      latest first. */
  lemma NewestFirstByTime(r: seq<HistoryEntry>, i: int, j: int, a: DateTime, b: DateTime)
    requires NewestFirst(r) && 0 <= i < j < |r|
    requires ValidDateTime(a) && ValidDateTime(b)
    requires r[i].timestamp == Str(Stamp(a)) && r[j].timestamp == Str(Stamp(b))
    ensures !Earlier(a, b)
  {
    StampOrder(a, b);
  }

  // =====================================================================
  // Saving and reading back

  /** scan_data with a timestamp added when the key is absent; a present
      timestamp, even null, is kept. */
  function Stamped(d: ScanData, t: DateTime): (r: ScanData)
    requires ValidDateTime(t)
    ensures d.timestamp.Some? ==> r == d
    ensures d.timestamp.None? ==> r == d.(timestamp := Some(Str(Stamp(t))))
  {
    if d.timestamp.None? then d.(timestamp := Some(Str(Stamp(t)))) else d
  }

  /** Stamping twice changes nothing more: the second save keeps the first
      timestamp. */
  lemma StampedIdempotent(d: ScanData, t1: DateTime, t2: DateTime)
    requires ValidDateTime(t1) && ValidDateTime(t2)
    ensures Stamped(Stamped(d, t1), t2) == Stamped(d, t1)
    ensures Stamped(d, t1).timestamp.Some?
  {
  }

  /** A key as json writes it: object keys become strings. */
  function JsonKey(v: Value): Value
  {
    match v
    case Null => Str("null")
    case Int(i) => Str(IntToString(i))
    case Str(s) => v
  }

  function ReloadedPorts(ports: seq<(Value, Value)>): seq<(Value, Value)>
  {
    seq(|ports|, k requires 0 <= k < |ports| => (JsonKey(ports[k].0), ports[k].1))
  }

  function ReloadedDevice(dev: Device): Device
  {
    if dev.ports.Filled? then dev.(ports := Filled(ReloadedPorts(dev.ports.value))) else dev
  }

  function ReloadedDevices(devs: Devices): Devices
  {
    seq(|devs|, i requires 0 <= i < |devs| =>
      (devs[i].0, if devs[i].1.Some? then Some(ReloadedDevice(devs[i].1.value)) else None))
  }

  /** What json.load gives back for a scan json.dump wrote. */
  function Reloaded(d: ScanData): ScanData
  {
    if d.devices.Filled? then d.(devices := Filled(ReloadedDevices(d.devices.value))) else d
  }

  /** No port map has a None key. */
  predicate NoNullPortKeys(d: ScanData)
  {
    d.devices.Filled? ==>
      forall i, k :: 0 <= i < |d.devices.value| && d.devices.value[i].1.Some? && 0 <= k < |PortsOf(d.devices.value[i].1.value.ports)| ==>
        !PortsOf(d.devices.value[i].1.value.ports)[k].0.Null?
  }

  /** Writing a scan and reading it back is a fixed point: a second round
      trip changes nothing. */
  lemma ReloadedIdempotent(d: ScanData)
    ensures Reloaded(Reloaded(d)) == Reloaded(d)
  {
    if d.devices.Filled? {
      var devs := d.devices.value;
      var once := ReloadedDevices(devs);
      forall i | 0 <= i < |devs| ensures ReloadedDevices(once)[i] == once[i] {
        if devs[i].1.Some? && devs[i].1.value.ports.Filled? {
          var ps := ReloadedPorts(devs[i].1.value.ports.value);
          assert ReloadedPorts(ps) == ps;
        }
      }
      assert ReloadedDevices(once) == once;
    }
  }

  /** Port lines and labels read the same whether a port key is an int or
      the string json turned it into. */
  lemma {:induction false} ReloadedPortLines(ports: seq<(Value, Value)>)
    requires forall k :: 0 <= k < |ports| ==> !ports[k].0.Null?
    ensures PortLines(ReloadedPorts(ports)) == PortLines(ports)
    ensures PortLabels(ReloadedPorts(ports)) == PortLabels(ports)
    decreases |ports|
  {
    if ports != [] {
      var init := ports[..|ports| - 1];
      assert ReloadedPorts(ports)[..|ports| - 1] == ReloadedPorts(init);
      ReloadedPortLines(init);
    }
  }

  lemma ReloadedDeviceReports(ip: string, dev: Device)
    requires forall k :: 0 <= k < |PortsOf(dev.ports)| ==> !PortsOf(dev.ports)[k].0.Null?
    ensures DeviceLines(ip, ReloadedDevice(dev)) == DeviceLines(ip, dev)
    ensures CsvRow(ip, ReloadedDevice(dev)) == CsvRow(ip, dev)
  {
    if dev.ports.Filled? {
      assert PortsOf(dev.ports) == dev.ports.value;
      ReloadedPortLines(dev.ports.value);
      assert ReloadedPorts(dev.ports.value) == [] <==> dev.ports.value == [];
    }
  }

  lemma {:induction false} ReloadedBlocks(devs: Devices)
    requires forall i, k :: 0 <= i < |devs| && devs[i].1.Some? && 0 <= k < |PortsOf(devs[i].1.value.ports)| ==>
      !PortsOf(devs[i].1.value.ports)[k].0.Null?
    ensures TxtBlocks(ReloadedDevices(devs)) == TxtBlocks(devs)
    ensures CsvBody(ReloadedDevices(devs)) == CsvBody(devs)
    decreases |devs|
  {
    if devs != [] {
      var init := devs[..|devs| - 1];
      assert ReloadedDevices(devs)[..|devs| - 1] == ReloadedDevices(init);
      ReloadedBlocks(init);
      var last := devs[|devs| - 1];
      if last.1.Some? {
        ReloadedDeviceReports(last.0, last.1.value);
      }
    }
  }

  /** A saved scan read back gives the same reports as before saving, as
      long as no port key is None (json would write it as "null"). */
  lemma ReloadedReports(d: ScanData)
    requires NoNullPortKeys(d)
    ensures TxtExport(Reloaded(d)) == TxtExport(d)
    ensures CsvExport(Reloaded(d)) == CsvExport(d)
  {
    if d.devices.Filled? {
      ReloadedBlocks(d.devices.value);
    }
  }

  /** os.path.join(a, b) on POSIX: an absolute b replaces a. */
  function PathJoin(a: string, b: string): (path: string)
    ensures |path| >= |b| && path[|path| - |b|..] == b
  {
    if |b| > 0 && b[0] == '/' then b
    else if a == [] || a[|a| - 1] == '/' then a + b
    else a + "/" + b
  }

  /** A file saved under a ".json" name that reads back as a scan is
      collected by the history listing, with the saved members. */
  lemma SavedScanListed(listing: seq<string>, files: map<string, Stored>, name: string, d: ScanData)
    requires IsJsonName(name) && name in listing
    requires forall n :: n in listing ==> n in files[name := ScanFile(d)]
    ensures Info(name, d) in Collect(listing, files[name := ScanFile(d)])
  {
    CollectSpec(listing, files[name := ScanFile(d)]);
  }

  class DataManager {
    const baseDir: string
    const historyDir: string
    var historyExists: bool
    /** The history directory: file name to what json.load makes of it. */
    var files: map<string, Stored>

    /** __init__: the directories are created when missing; files already
        in the history directory stay. */
    constructor (baseDir: string, existing: map<string, Stored>)
      ensures this.baseDir == baseDir && historyDir == PathJoin(baseDir, "history")
      ensures historyExists && files == existing
    {
      this.baseDir := baseDir;
      historyDir := PathJoin(baseDir, "history");
      historyExists := true;
      files := existing;
    }

    /** save_scan_results: the timestamp is added when absent (to the
        caller's dict, even when the write then fails); the file is named
        after the clock when no name is given; opening fails when the
        directory is missing or the name is empty. */
    method SaveScanResults(scanData: ScanData, filename: Option<string>, fileClock: DateTime, dataClock: DateTime)
      returns (saved: ScanData, path: Result<string>)
      requires ValidDateTime(fileClock) && ValidDateTime(dataClock)
      modifies this
      ensures saved == Stamped(scanData, dataClock)
      ensures var name := SaveName(filename, fileClock);
        if old(historyExists) && name != "" then
          path == Ok(PathJoin(historyDir, name)) && files == old(files)[name := ScanFile(Reloaded(saved))]
        else
          path.Err? && files == old(files)
      ensures historyExists == old(historyExists)
    {
      var name := SaveName(filename, fileClock);
      saved := scanData;
      if saved.timestamp.None? {
        saved := saved.(timestamp := Some(Str(Stamp(dataClock))));
      }
      path := Store(name, Reloaded(saved));
    }

    /** Writing one file into the history directory; opening fails when the
        directory is missing or the name is empty. */
    method Store(name: string, data: ScanData) returns (path: Result<string>)
      modifies this
      ensures if old(historyExists) && name != "" then
          path == Ok(PathJoin(historyDir, name)) && files == old(files)[name := ScanFile(data)]
        else
          path.Err? && files == old(files)
      ensures historyExists == old(historyExists)
    {
      var filepath := PathJoin(historyDir, name);
      if historyExists && name != "" {
        files := files[name := ScanFile(data)];
        path := Ok(filepath);
      } else {
        path := Err("cannot open " + filepath);
      }
    }

    /** load_scan_results: None for a missing file and for one that fails
        to read or parse. */
    method LoadScanResults(filename: string) returns (data: Option<ScanData>)
      ensures data.Some? <==> historyExists && filename in files && files[filename].ScanFile?
      ensures data.Some? ==> data.value == files[filename].data
    {
      if !historyExists || filename !in files {
        return None;
      }
      match files[filename] {
        case ScanFile(d) => data := Some(d);
        case Unreadable => data := None;
      }
    }

    /** delete_scan_result: False for a missing file; otherwise the file is
        removed. */
    method DeleteScanResult(filename: string) returns (removed: bool)
      modifies this
      ensures removed == (historyExists && filename in old(files))
      ensures files == (if removed then old(files) - {filename} else old(files))
      ensures historyExists == old(historyExists)
    {
      if !historyExists || filename !in files {
        return false;
      }
      files := files - {filename};
      removed := true;
    }

    /** get_scan_history over the directory listing in the order the
        system returns it. */
    method GetScanHistory(listing: seq<string>) returns (history: Result<seq<HistoryEntry>>)
      requires Distinct(listing) && forall name :: name in listing <==> name in files
      ensures history == History(historyExists, listing, files)
    {
      if !historyExists {
        return Ok([]);
      }
      var entries := [];
      var i := 0;
      while i < |listing|
        invariant 0 <= i <= |listing|
        invariant entries == Collect(listing[..i], files)
      {
        assert listing[..i + 1][..i] == listing[..i];
        var name := listing[i];
        if IsJsonName(name) {
          match files[name] {
            case ScanFile(d) => entries := entries + [Info(name, d)];
            case Unreadable =>
          }
        }
        i := i + 1;
      }
      assert listing[..i] == listing;
      if Orderable(entries) {
        history := Ok(SortNewestFirst(entries));
      } else {
        history := Err("TypeError");
      }
    }
  }
}
