# Local network scanner: a verified model of its core

This project models, in Dafny, the core of a desktop tool for scanning a local
network. The tool does four things:

- It discovers the hosts of a /24 network, by ping sweep or by ARP requests.
- It scans a host's TCP ports and names the services on the open ones.
- It guesses each host's operating system. It combines three sources: the TTL
  of a ping reply, the pattern of open ports, and service banners.
- It keeps scan results as JSON files in a history directory, lists them newest
  first, and exports one scan as CSV or as a text report. A heat-map view
  colours and sizes each host by its number of open ports.

The model has five modules:

- `Common`: option and result types, decimal rendering and parsing,
  Python's string order, and `str.split` / `join`.
- `OsDetection`: `OSDetector`, from `src/os_detection.py`. The signature
  tables are constants. Score dictionaries are association lists that keep
  Python's insertion order, because `max` picks the first best entry. Each
  loop of the source is a method proved equal to a specification function.
- `NetworkScanner`: the `NetworkScanner` class, from
  `src/network_scanner.py`. It is a Dafny class with the source's fields.
  `scan_results` is a map plus a sequence of its keys in insertion order.
  Everything the scanner learns from the outside is an oracle field of a
  `Probes` value:
  - ping replies, MAC addresses and host names;
  - whether `connect_ex` succeeds;
  - the system's service database;
  - ping output, banners and the banner patterns;
  - the queue position at which a stop request is observed.
- `Heatmap`: the colour, alpha and radius functions of
  `src/heatmap_utils.py`, over real numbers. It includes a parser for the
  `#rrggbb` text, so the colour is proved by a round trip.
- `DataManager`: `src/data_manager.py`. JSON values are `Value` (null,
  integer or string). A field can be missing, JSON `null` or filled. The
  history directory is a class holding a map from file names to stored
  files.

## Model

| member | source | states |
|---|---|---|
| Common.DigitsValueOfNatToString | src/os_detection.py:108 | reading back the decimal text of `n` gives `n` |
| Common.NatToStringInjective | src/os_detection.py:108 | different numbers have different decimal texts |
| Common.DigitRunOfDigits | src/os_detection.py:115 | `\d+` takes exactly the digits before the first non-digit |
| Common.StrLessIrreflexive | src/data_manager.py:120 | Python's string `<` is irreflexive |
| Common.StrLessTransitive | src/data_manager.py:120 | Python's string `<` is transitive |
| Common.StrLessTotal | src/data_manager.py:120 | any two different strings are ordered one way or the other |
| Common.SplitJoin | src/network_scanner.py:96 | `split('.')` yields at least one part, no part holds a dot, and joining the parts with dots gives back the input |
| Common.SplitLength | src/network_scanner.py:96 | `split` yields one more part than there are separators |
| Common.SplitCons | src/network_scanner.py:96 | a dot-free prefix followed by a dot is split off as the first part |
| Common.JoinEmptyOnlyIfPartsEmpty | src/data_manager.py:150 | joining non-empty parts is empty only when there are no parts |
| OsDetection.AddNames | src/os_detection.py:280 | `d[k] = d.get(k, 0) + x` keeps keys distinct and appends a new key at the end |
| OsDetection.AddLookup | src/os_detection.py:280 | that update adds `x` to key `k` and to no other key |
| OsDetection.BaseTtlIsSmallestCeiling | src/os_detection.py:76-84 | the base TTL is the smallest table TTL at or above the measured TTL, or 255 above all of them |
| OsDetection.TtlCandidatesUnresolved | src/os_detection.py:72-73 | with no TTL the candidates are `["Desconhecido"]` |
| OsDetection.DetectOsByTtl | src/os_detection.py:61-87 | the loop returns the parsed TTL and the OS list of its base TTL, or `["Desconhecido"]` when there is no TTL |
| OsDetection.ParseTtlSpec | src/os_detection.py:105-121 | the TTL is absent iff no `ttl=<digit>` occurs (case-insensitive), otherwise it is the digits after the first occurrence |
| OsDetection.ParseTtlRoundTrip | src/os_detection.py:105-121 | text holding `ttl=N` after a tag-free prefix parses back to `N` |
| OsDetection.CountOpen | src/os_detection.py:142 | the match count is at most the signature's size, and positive iff some signature port is open |
| OsDetection.PortSignaturesFacts | src/os_detection.py:32-38 | the port signatures name Windows, Linux, macOS, FreeBSD and network equipment, once each in that order, and each lists at least one port |
| OsDetection.PercentBounds | src/os_detection.py:146 | a match percentage is in (0, 100] |
| OsDetection.PortScoresSpec | src/os_detection.py:134-149 | no open ports give no scores; otherwise an OS is scored iff one of its ports is open, with score `100 * matches / size` in (0, 100] |
| OsDetection.DetectOsByPorts | src/os_detection.py:134-149 | the loop computes the port scores |
| OsDetection.KeepBannerPortsFacts | src/os_detection.py:198-201 | the filter keeps exactly the open ports that are banner ports, in their original order |
| OsDetection.BannerProbesSpec | src/os_detection.py:198-204 | at most 5 ports are probed, all open banner ports: the whole filtered list when it has at most 5 entries, otherwise exactly its first 5 |
| OsDetection.BannerScoresSpec | src/os_detection.py:191-232 | no ports or no banner gives no scores; otherwise each OS scores `100 * (banners matching one of its patterns) / (banners read)`, in (0, 100] |
| OsDetection.GrabBanners | src/os_detection.py:207-210 | the loop stores each non-empty banner under its port |
| OsDetection.CountBannerMatches | src/os_detection.py:218-225 | the loop counts the banners that match at least one pattern |
| OsDetection.DetectOsByBanners | src/os_detection.py:191-232 | the method computes the banner scores |
| OsDetection.CombinedSpec | src/os_detection.py:276-288 | combined keys are the TTL candidates, then new port-score keys, then new banner-score keys; each score is 40 if TTL-named plus 0.3 of its port and banner scores |
| OsDetection.AddFlatNames | src/os_detection.py:278-280 | the TTL loop keeps keys distinct and appends each new TTL candidate at the end, in order |
| OsDetection.AddFlatLookup | src/os_detection.py:278-280 | the TTL loop adds 40 to each TTL candidate and nothing to any other key |
| OsDetection.AddWeightedNames | src/os_detection.py:282-288 | the port and banner loops keep keys distinct and append each new OS at the end, in order |
| OsDetection.AddWeightedLookup | src/os_detection.py:282-288 | each of those loops adds `0.3 * score` to the key of every scored OS and nothing to any other key |
| OsDetection.CombinedBounds | src/os_detection.py:276-288 | every combined score lies in [0, 100] |
| OsDetection.BestIndex | src/os_detection.py:292 | the winner has the highest score and comes first among equals |
| OsDetection.DecideSpec | src/os_detection.py:276-294 | the details hold the three score sets; the guess is the first entry of highest combined score, with confidence in [0, 100] |
| OsDetection.OsGuessWithPorts | src/os_detection.py:256-294 | with open ports the details are the three score sets, and the guess is the first best combined entry with confidence in [0, 100] |
| OsDetection.OsGuessWithoutPorts | src/os_detection.py:245-259 | without open ports: the first TTL candidate at 40, or "Desconhecido" at 0 |
| OsDetection.SingleCandidateWinsWithoutBanners | src/os_detection.py:276-294 | a single TTL candidate with no banner scores always wins, at `40 + 0.3 * its port score` |
| OsDetection.UnknownNotPortScored | src/os_detection.py:32-38 | "Desconhecido" never gets a port score |
| OsDetection.ExampleWindowsPortsWithoutTtl | src/os_detection.py:276-294 | no TTL and the four Windows ports: the guess is "Desconhecido" at 40, though Windows scores 100 on ports |
| OsDetection.ExampleTtl128WebPorts | src/os_detection.py:276-294 | TTL 128 with ports 80, 443 and 22 and no banners gives Windows at 40 |
| OsDetection.CombineScores | src/os_detection.py:276-288 | the three loops compute the combined scores |
| OsDetection.DetectOs | src/os_detection.py:234-301 | the method returns the specified classification |
| NetworkScanner.NetworkFromIpCases | src/network_scanner.py:90-98 | a missing, empty or loopback IP gives `192.168.1.0/24`; fewer than two dots is an error |
| NetworkScanner.NetworkOfDotted | src/network_scanner.py:95-98 | a dotted address `a.b.c...` gives `a.b.c.0/24` |
| NetworkScanner.ServiceName | src/network_scanner.py:413-438 | the system name if known, else the built-in table's name, else "unknown" |
| NetworkScanner.CommonPortsSize | src/network_scanner.py:417-437 | the built-in table has 19 ports |
| NetworkScanner.Hosts24 | src/network_scanner.py:171-172 | a /24 network has the 254 hosts `.1` to `.254` |
| NetworkScanner.Hosts24Distinct | src/network_scanner.py:210-211 | the queued hosts are distinct |
| NetworkScanner.PingTableOrder | src/network_scanner.py:192-202 | over a queue without duplicates, each answering host gets its own record, in queue order |
| NetworkScanner.Hosts24Order | src/network_scanner.py:170-211 | the hosts of the scanned /24 network taken before a stop are each recorded once |
| NetworkScanner.WithOpenPortsSpec | src/network_scanner.py:350-357 | recording open ports adds each with its service name, keeps other ports, and marks the host online iff a port was found |
| NetworkScanner.Put | src/network_scanner.py:137-143 | assigning a host keeps the map and its key order consistent |
| NetworkScanner.StopIndex | src/network_scanner.py:337 | workers take queue items up to the first one at which a stop is seen |
| NetworkScanner.OpenPortsMembers | src/network_scanner.py:343-353 | a port is reported iff it is in the walked range and connects |
| NetworkScanner.OpenPortsAscending | src/network_scanner.py:366-368 | ports are found in ascending queue order |
| NetworkScanner.PingTableSpec | src/network_scanner.py:192-202 | a host is recorded iff it was queued and answers ping, with its MAC, hostname, no ports and status online |
| NetworkScanner.ArpTableSpec | src/network_scanner.py:131-143 | a host is recorded iff some ARP reply names it, online, with no ports; each address carries the MAC of its own last reply |
| NetworkScanner.Scanner.constructor | src/network_scanner.py:36-49 | empty results, not scanning, no stop request, network derived from the local IP |
| NetworkScanner.Scanner.StopScan | src/network_scanner.py:440-443 | sets the stop flag and changes nothing else |
| NetworkScanner.Scanner.ScanPorts | src/network_scanner.py:303-401 | the open ports are those walked before a stop, with their service names; the host record is created if absent and updated; a stop seen mid-walk stays set |
| NetworkScanner.Scanner.RecordOs | src/network_scanner.py:392-398 | stores the detected OS name and confidence in the host record |
| NetworkScanner.Scanner.PortWalk | src/network_scanner.py:331-385 | the queue walk reports the open ports taken before the stop and records them |
| NetworkScanner.Scanner.TakePort | src/network_scanner.py:343-364 | one port probe appends the port iff it connects |
| NetworkScanner.Scanner.ScanNetworkPing | src/network_scanner.py:158-239 | the queue is the network's 254 hosts; results are cleared, then filled from the hosts taken before a stop, each answering host once; not scanning afterwards; an invalid network leaves them empty |
| NetworkScanner.Scanner.ScanNetworkArp | src/network_scanner.py:100-156 | falls back to ping over the network's hosts when ARP is unavailable; otherwise the results are the ARP replies, or empty after an error |
| NetworkScanner.Scanner.GetSummary | src/network_scanner.py:445-463 | the device count is the number of recorded hosts; the open-port total is the sum of their port counts; the devices are the results; timestamp, network, local IP and gateway are the scanner's |
| NetworkScanner.ScanPortsRange | src/network_scanner.py:366-368 | every reported port is in the range and open; a flag already set means no port is taken; with no stop, every open port in range is reported |
| NetworkScanner.ScannedHostSpec | src/network_scanner.py:315-398 | the host keeps its MAC and name and gains the open ports; its OS is replaced only when a detector exists and ports were found |
| NetworkScanner.OpenPortCountPut | src/network_scanner.py:453 | replacing a host changes the open-port total by the difference of its port counts |
| NetworkScanner.ScanPortsSummary | src/network_scanner.py:453 | after a port scan the total grows by the number of newly found ports |
| NetworkScanner.JoinReturnsOnlyWithoutStop | src/network_scanner.py:221 | as written, the wait on the queue returns only when the queue is empty or no stop is seen |
| NetworkScanner.ExampleStopFlagLeftSet | src/network_scanner.py:331-378 | a port scan started with the flag of an earlier stop still set takes no port and never returns |
| Heatmap.Clamp | src/heatmap_utils.py:26-30 | the clamped value lies in range and is unchanged inside it; a value below the minimum becomes exactly the minimum, one above the maximum exactly the maximum; when the bounds are reversed the upper bound wins |
| Heatmap.Normalized | src/heatmap_utils.py:32-36 | the normalised value is in [0, 1] |
| Heatmap.NormalizedEnds | src/heatmap_utils.py:26-36 | 0 at or below the minimum, 1 at or above the maximum, 0 for equal bounds, 1 for reversed bounds |
| Heatmap.NormalizedInverse | src/heatmap_utils.py:32-36 | interpolating the normalised value between the bounds gives back the value |
| Heatmap.NormalizedMonotone | src/heatmap_utils.py:26-36 | normalisation is monotone in the value |
| Heatmap.Channels | src/heatmap_utils.py:40-64 | each channel is an integer in [0, 255] |
| Heatmap.ChannelBands | src/heatmap_utils.py:40-64 | which channels are fixed in each fifth of the scale: blue at 0, red from 0.8 |
| Heatmap.ChannelsBandMonotone | src/heatmap_utils.py:40-64 | within each band the changing channel moves monotonically |
| Heatmap.ColorHexRoundTrip | src/heatmap_utils.py:67 | parsing `#rrggbb` gives back the three channels |
| Heatmap.HeatColor | src/heatmap_utils.py:14-67 | the colour is `#` followed by six hex digits |
| Heatmap.HeatColorChannels | src/heatmap_utils.py:14-67 | the colour text decodes to the channels of the normalised value |
| Heatmap.HeatColorEnds | src/heatmap_utils.py:26-64 | blue `#0000ff` at the minimum or with equal bounds; red `#ff0000` from 0.8 up, at the maximum, and always when the bounds are reversed |
| Heatmap.HeatAlphaColor | src/heatmap_utils.py:69-100 | the base colour is returned unchanged; alpha lies between its two bounds |
| Heatmap.HeatRadius | src/heatmap_utils.py:102-131 | the radius lies between its two bounds |
| Heatmap.HeatRadiusEnds | src/heatmap_utils.py:116-129 | the minimum radius at the minimum value, the maximum radius at the maximum value |
| Heatmap.HeatRadiusMonotone | src/heatmap_utils.py:116-129 | larger values never get smaller circles |
| Heatmap.Defaults | src/heatmap_utils.py:69-131 | with the defaults the radius is in [15, 30], the colour is `#6495ED`, and alpha is in [0.2, 1] |
| DataManager.DeviceLinesSpec | src/data_manager.py:187-207 | a device block is 6 lines plus one per port; it starts with its IP, ends blank, and says "Nenhuma" iff it has no ports |
| DataManager.TxtBlocksOk | src/data_manager.py:185-207 | the device loop completes iff every device is an object |
| DataManager.TxtBlocksLength | src/data_manager.py:185-207 | when every device is an object the blocks hold `6 * devices + ports` lines |
| DataManager.TxtBlocksStop | src/data_manager.py:185-207 | once a device is not an object, no later device adds a line and the writer has failed |
| DataManager.TxtExportSpec | src/data_manager.py:162-214 | the text export succeeds iff every device is an object; it starts with the 11 header lines; on success it has `11 + 6 * devices + ports` lines |
| DataManager.WriteDevice | src/data_manager.py:187-207 | the port loop writes the device's block |
| DataManager.WriteDevices | src/data_manager.py:185-207 | the device loop writes each block and stops at the first non-object device |
| DataManager.ExportTxt | src/data_manager.py:162-214 | an unopenable file fails with nothing written; otherwise the file holds the lines written before any error |
| DataManager.CsvBodySpec | src/data_manager.py:144-153 | the rows are written iff each device is an object with ports that are not null; one row per device |
| DataManager.CsvBodyRows | src/data_manager.py:144-153 | a writable device list gives exactly one row per device, in order, each the row of its device |
| DataManager.CsvBodyStop | src/data_manager.py:144-153 | once a device cannot be written, no later device adds a row and the writer has failed |
| DataManager.RowOf | src/data_manager.py:144-153 | the port-label loop builds the device's row: IP, hostname, MAC, status and the joined `port (service)` labels |
| DataManager.PortsCellEmpty | src/data_manager.py:150 | the ports cell is empty iff the device has no ports |
| DataManager.CsvExportSpec | src/data_manager.py:123-160 | the CSV starts with the header; on success it has one 5-cell row per device, headed by its IP, with an empty ports cell iff no ports |
| DataManager.CsvCompleteImpliesTxtComplete | src/data_manager.py:123-214 | data that exports to CSV also exports to text |
| DataManager.NullPortsSplitTheWriters | src/data_manager.py:144-207 | a device whose ports are `null` exports to text but stops the CSV after its header |
| DataManager.ExportCsv | src/data_manager.py:123-160 | an unopenable file fails; otherwise the file holds the rows written before any error |
| DataManager.CollectSpec | src/data_manager.py:100-117 | the history lists exactly the readable `.json` scan files of the directory, each with its info |
| DataManager.KeyLessTransitive | src/data_manager.py:120 | the timestamp order is transitive |
| DataManager.KeyLessTotal | src/data_manager.py:120 | timestamps of one kind are totally ordered |
| DataManager.SortNewestFirst | src/data_manager.py:120 | sorting permutes the entries |
| DataManager.SortSpec | src/data_manager.py:120 | sorting by timestamp in reverse is sorted newest first and stable among equal timestamps |
| DataManager.OrderedHistory | src/data_manager.py:118-120 | entries whose timestamps can be compared come out newest first, in their original order among equal timestamps |
| DataManager.HistorySpec | src/data_manager.py:88-121 | a missing directory gives an empty list; mixed or null timestamps raise TypeError; otherwise the files, newest first, stable |
| DataManager.DefaultFilename | src/data_manager.py:47-50 | the default name is `scan_` plus the 15-character `YYYYmmdd_HHMMSS` stamp plus `.json` |
| DataManager.SaveName | src/data_manager.py:47-50 | a given name is used as is; otherwise the default name, which ends in `.json` |
| DataManager.StampOrder | src/data_manager.py:55-56 | comparing two `%Y-%m-%d %H:%M:%S` stamps as strings is comparing the times; equal stamps mean equal times |
| DataManager.NewestFirstByTime | src/data_manager.py:100-120 | in the sorted history an earlier entry is never older than a later one |
| DataManager.Stamped | src/data_manager.py:54-56 | a timestamp is added only when the key is absent |
| DataManager.StampedIdempotent | src/data_manager.py:54-56 | saving twice never changes the first timestamp |
| DataManager.ReloadedIdempotent | src/data_manager.py:58-81 | a second JSON round trip changes nothing more |
| DataManager.ReloadedReports | src/data_manager.py:58-214 | with no null port key, both exports of the reloaded scan equal those of the saved scan |
| DataManager.SavedScanListed | src/data_manager.py:58-117 | a saved `.json` scan appears in the history |
| DataManager.DataManager.constructor | src/data_manager.py:20-34 | the history directory is `base/history` and exists afterwards |
| DataManager.DataManager.SaveScanResults | src/data_manager.py:36-62 | adds a timestamp if absent, writes the reloaded data under the given or default name, and returns its path; fails with no change when the directory is missing or the name is empty |
| DataManager.DataManager.Store | src/data_manager.py:58-62 | writing a file under a non-empty name in an existing directory stores the data and returns its path; otherwise it fails and no file changes |
| DataManager.DataManager.LoadScanResults | src/data_manager.py:64-86 | returns the stored scan iff the file exists and is readable, otherwise nothing |
| DataManager.DataManager.DeleteScanResult | src/data_manager.py:216-238 | removes the file iff it exists and reports that; nothing else changes |
| DataManager.DataManager.GetScanHistory | src/data_manager.py:88-121 | the directory scan computes the specified history |

## Left out

- Sockets, `ping` and `arp` subprocesses, scapy, DNS and the system service database are outside the model. Their answers come in as oracle fields of `Probes` or as method parameters.
- Threads are left out. The worker pool is one sequential walk of the queue in order. The stop request is an oracle that says at which queue item a worker first sees the flag. Interleavings are not modelled. The discovery model lists hosts in queue order; with threads the order of the records can differ.
- `get_local_ip` and `get_gateway` are inputs to the `Scanner` constructor. Their command-output parsing is not part of this model.
- `is_valid_ip` is not modelled. It wraps `socket.inet_aton` and is used only by `get_gateway`.
- Callbacks into the user interface and console messages are not modelled.
- Timing and the clock are inputs. `datetime.now()` is a `DateTime` parameter.
- Only years 1000 to 9999 are covered. `%Y` output for earlier years is not modelled.
- Banner regular expressions are an abstract `matches(os, banner)` predicate. The patterns themselves are not modelled.
- `get_service_banner` is an oracle. A `None` or empty banner is one the scanner did not receive.
- Floating point is modelled as exact real arithmetic. Scores, confidences, alpha and radius ignore IEEE rounding. `int()` truncation of the colour channels is `.Floor` on non-negative reals.
- `OsDetection.CombineScores`: the 0.3 weights are exact reals. Python's `score * 0.3` rounds, so an exact tie there may break differently.
- JSON floats and booleans are not modelled. A `Value` is null, an integer or a string.
- JSON files that are not objects are treated as unreadable. `load_scan_results` would return such data as it is.
- `Reloaded` writes integer port keys as strings, as `json.dump` does. Two port keys that become the same string after that conversion are not modelled.
- CSV quoting of cells with commas or quotes is not modelled. A row is its list of cells.
- `clear_history` and `create_heatmap_legend` are not modelled. The first removes the whole directory; the second draws on a Tk canvas.
- File-system errors other than a missing history directory are not modelled. This covers permission errors, a failing `os.remove`, and names that contain path separators.
- `DataManager.DataManager.SaveScanResults`: the source adds the timestamp to the caller's own dictionary. The model returns the stamped data as `saved` instead of modifying the argument.
- `NetworkScanner.Scanner.ScanNetworkPing`: the source does not refuse a discovery started while another is running. The model follows the code and restarts the state.
- `NetworkScanner.Scanner.ScanPorts`, `NetworkScanner.Scanner.PortWalk`, `NetworkScanner.Scanner.ScanNetworkPing`, `NetworkScanner.ScanPortsRange`: the source waits forever in `q.join()` (src/network_scanner.py:221 and :378) after a stop that leaves items in the queue, because workers leave their loop without marking those items done. Then `is_scanning` stays true, no OS detection runs and nothing is returned. The model returns instead, with the results gathered before the stop, as the drain code after the wait intends; `JoinReturnsOnlyWithoutStop` states the behaviour as written.
- `NetworkScanner.Scanner.ScanPorts`: `scan_ports` never clears the stop flag. After a stopped scan, every later port scan creates its record and then waits forever; the model returns with no port taken.
- `NetworkScanner.Scanner.ScanNetworkPing`, `NetworkScanner.Scanner.ScanNetworkArp`: parsing the network text with `ipaddress` is not modelled. The host list is a parameter, `None` when parsing fails, otherwise required to be the 254 hosts of the scanner's /24 network.
- `Common.IsDigit`, `Common.DigitRun`: only ASCII digits count. Python's `\d` on a text pattern (src/os_detection.py:106 and :115) also matches other Unicode decimal digits, and `int()` accepts them.

## Findings

| source | as written | input that shows it | evidently intended | confidence | as-written member | corrected member |
|---|---|---|---|---|---|---|
| src/network_scanner.py:331-378 | workers stop taking items once the stop flag is set, without marking the rest done, and `q.join()` waits for every item; `scan_ports` never clears the flag | `stop_scan()` during a port scan of 1-1024, or any port scan started after it | after a stop the scan ends with the results gathered so far, as the drain code at :381-385 suggests | high, not executed | NetworkScanner.JoinReturnsOnlyWithoutStop | NetworkScanner.Scanner.ScanPorts |
