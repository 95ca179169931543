# SpeedTestLogger: server selection, region codes and record assembly

This project models the core of `SpeedTestRunner` from the SpeedTestLogger
tool and proves properties of that model. SpeedTestLogger measures download
and upload bandwidth against the best test server of a configured region and
packages the result as a `TestData` record. The model covers three parts:

- **Server selection** (`FindBestTestServer`). The runner keeps the candidate
  servers whose `Country` equals the configured region's English name
  (ordinal, case-sensitive). It keeps the first ten of them in list order. It
  probes each kept server once and stores the result in its `Latency` field.
  It then returns the head of a stable ordering by latency. With no candidate
  it fails, as `First()` on an empty list throws.
- **Region-code resolution** (`GetISORegionNameFromEnglishName`). This is a
  first-match lookup over the culture catalog. It skips LCID 4096 and compares
  names ignoring case. When nothing matches it returns `"XX"`.
- **Record assembly** (`RunSpeedTest`). The runner copies fields from the
  settings and from the chosen server into `TestData`. Coordinates appear under
  two alias names. It converts the raw speeds to Mbps and rounds the distance.

Modules, one per component:

- `Outcomes` (`outcomes.dfy`): `Option`, `Result` and the `NoServerAvailable`
  error.
- `Regions` (`regions.dfy`): the resolver, as pure functions over a catalog
  sequence of `Culture(lcid, englishName, twoLetterIsoRegionName)` entries.
- `Rounding` (`rounding.dfy`): `Math.Round` with its default midpoint rule
  (round half to even), applied to speeds and distance, over exact reals.
- `LatencyOrder` (`latency_order.dfy`): LINQ's stable `OrderBy` by latency,
  as an insertion sort over positions. It proves that the head of that ordering
  is the first position holding the smallest latency.
- `SpeedTest` (`speed_test_runner.dfy`): the `Server` class, whose `latency`
  the runner updates in place. The `SpeedTestClient` class is the network
  library, treated as an oracle. It keeps a ghost log of the latency probes it
  serves. The `SpeedTestRunner` class holds the imperative selection, the
  measurement calls and the assembly of the record.

The network library (`SpeedTestClient`) is modelled as three fixed functions:
probe latency, download rate and upload rate. `GetSettings()` becomes the
`settings` value passed to the runner's constructor. The runtime culture
catalog becomes the `cultures` sequence given to the runner.

Two points about the code that the model keeps as written:

- `ConvertToSpeedPerMbps` divides by 1024, so a raw rate of 20480 yields 20.00
  (`Rounding.SampleConversions`).
- `First()` throws on an empty list. The model calls that failure
  `NoServerAvailable` and gives it no other meaning.

## Model

| member | source | states |
|---|---|---|
| `Regions.GetIsoRegionNameFromEnglishName` | SpeedTestLogger/SpeedTestRunner.cs:68-91 | The result is "XX" or the two-letter code of a catalog entry whose LCID is not 4096 and whose English name matches the input ignoring case. Without such an entry the result is "XX". |
| `Regions.SupportedRegionsMembers` | SpeedTestLogger/SpeedTestRunner.cs:73-77 | The filtered catalog holds exactly the entries whose LCID is not 4096. |
| `Regions.EqualsIgnoreCase` | SpeedTestLogger/SpeedTestRunner.cs:81 | Two names are equal ignoring case exactly when they have the same length and agree character by character after ASCII case folding. |
| `Regions.SupportedRegions` | SpeedTestLogger/SpeedTestRunner.cs:73-77 | Every kept entry has an LCID other than 4096. `Regions.SupportedRegionsMembers` shows it keeps all of them. |
| `Regions.FirstMatch` | SpeedTestLogger/SpeedTestRunner.cs:79-82 | A found region is in the list and matches the name ignoring case. `Regions.FirstMatchSpec` shows it is the first such region. |
| `Regions.FirstMatchSpec` | SpeedTestLogger/SpeedTestRunner.cs:79-82 | `FirstOrDefault` gives nothing exactly when no region's name matches ignoring case. Otherwise it gives a matching region, and no region before it matches. |
| `Regions.ResolvesToFirstSupportedMatch` | SpeedTestLogger/SpeedTestRunner.cs:71-90 | Take the first catalog entry that is not LCID 4096 and whose name matches ignoring case. The result is that entry's code, whatever comes after it. |
| `Regions.UnknownExactlyWhenNoMatch` | SpeedTestLogger/SpeedTestRunner.cs:79-90 | Assume no supported entry carries the code "XX". Then the result is "XX" if and only if no supported entry matches. |
| `Regions.UnsupportedCultureIgnored` | SpeedTestLogger/SpeedTestRunner.cs:71-77 | Inserting an LCID-4096 entry anywhere in the catalog never changes the result. |
| `Regions.ResolutionIgnoresCase` | SpeedTestLogger/SpeedTestRunner.cs:79-82 | Two names that are equal ignoring case resolve to the same code. |
| `Regions.SampleResolvesIgnoringCase` | SpeedTestLogger/SpeedTestRunner.cs:68-91 | On a sample catalog, "united states" resolves to "US". An LCID-4096 "United States" entry placed earlier is skipped. |
| `Regions.SampleUnknownName` | SpeedTestLogger/SpeedTestRunner.cs:84-88 | On the sample catalog, a name that matches no entry resolves to "XX". |
| `Rounding.RoundHalfToEven` | SpeedTestLogger/SpeedTestRunner.cs:61 | The result is an integer within 0.5 of the input. When it is exactly 0.5 away, the result is even. |
| `Rounding.RoundToHundredths` | SpeedTestLogger/SpeedTestRunner.cs:121 | `Math.Round(v, 2)`: the result is a whole number of hundredths within 0.005 of the input. At a midpoint the number of hundredths is even. |
| `Rounding.RoundToHundredthsIdempotent` | SpeedTestLogger/SpeedTestRunner.cs:121 | Rounding an already rounded value to hundredths leaves it unchanged. |
| `Rounding.ConvertToSpeedPerMbps` | SpeedTestLogger/SpeedTestRunner.cs:119-122 | The result is a whole number of hundredths within 0.005 of the raw rate divided by 1024. At a midpoint the number of hundredths is even. It is non-negative when the raw rate is. |
| `Rounding.RoundDistance` | SpeedTestLogger/SpeedTestRunner.cs:61 | The recorded distance is an integer within 0.5 of the server's distance. At a midpoint it is even. |
| `Rounding.SampleConversions` | SpeedTestLogger/SpeedTestRunner.cs:119-122 | Raw rates 20480 and 5120 convert to 20.0 and 5.0 Mbps. Distance 42.6 rounds to 43. |
| `LatencyOrder.FirstLowest` | SpeedTestLogger/SpeedTestRunner.cs:99-101 | The position holds a latency no greater than any other. Every earlier position holds a strictly greater latency. |
| `LatencyOrder.OrderByLatency` | SpeedTestLogger/SpeedTestRunner.cs:97-99 | The ordering is a permutation of the positions of the probed list. `LatencyOrder.OrderByLatencyIsStableSort` shows it is a stable ascending sort. |
| `LatencyOrder.OrderByLatencyIsStableSort` | SpeedTestLogger/SpeedTestRunner.cs:97-99 | `OrderBy(s => s.Latency)` is a permutation of the positions. It is ascending by latency, and equal latencies keep their list order. |
| `LatencyOrder.HeadOfOrderByLatency` | SpeedTestLogger/SpeedTestRunner.cs:99-101 | On a non-empty list, the head of the stable ordering is the first position with the smallest latency. |
| `SpeedTest.LocalServers` | SpeedTestLogger/SpeedTestRunner.cs:95 | Every kept server's country equals the region's English name, and at most all servers are kept. `SpeedTest.LocalServersMembers` and `SpeedTest.LocalServersAppend` show it keeps every matching server, in list order. |
| `SpeedTest.TenLocalServers` | SpeedTestLogger/SpeedTestRunner.cs:95 | `Take(10)`: a prefix of the region's servers. It holds at most ten servers, and fewer only when it holds all of them. |
| `SpeedTest.LocalServersMembers` | SpeedTestLogger/SpeedTestRunner.cs:95 | The `Where` step keeps a server exactly when its country equals the region's English name exactly. |
| `SpeedTest.LocalServersAppend` | SpeedTestLogger/SpeedTestRunner.cs:95 | The `Where` step keeps list order: filtering `a + b` gives the filtered `a` followed by the filtered `b`. |
| `SpeedTest.TenLocalServersSpec` | SpeedTestLogger/SpeedTestRunner.cs:95 | The probed servers are the first min(10, #matches) matching servers, in list order. Each of them is in the list and has exactly the region's name as its country. |
| `SpeedTest.NothingProbedIffNoLocalServer` | SpeedTestLogger/SpeedTestRunner.cs:95-101 | The probe list is empty if and only if no server's country equals the region's name. |
| `SpeedTest.FirstByLatency` | SpeedTestLogger/SpeedTestRunner.cs:97-101 | An empty list gives `NoServerAvailable`. Otherwise the result is the head of the stable ordering by latency. That is a listed server with the smallest latency, and every server before it has a greater latency. |
| `SpeedTest.SpeedTestClient.TestServerLatency` | SpeedTestLogger/SpeedTestRunner.cs:98 | Returns the oracle's latency for the server and appends the server to the probe log. |
| `SpeedTest.SpeedTestRunner.ProbeLatencies` | SpeedTestLogger/SpeedTestRunner.cs:97-98 | Each server is probed once, in list order. Each server's `latency` afterwards holds its probe result. |
| `SpeedTest.SpeedTestRunner.FindBestTestServer` | SpeedTestLogger/SpeedTestRunner.cs:93-103 | The probe log grows by exactly the first ten region servers, in order, and each holds its probe result. Servers not probed keep their latency. The method fails exactly when there is no region server, and then it probes nothing. Otherwise it returns the first probed server with the smallest latency, which is in the region. |
| `SpeedTest.SpeedTestRunner.TestDownloadSpeed` | SpeedTestLogger/SpeedTestRunner.cs:105-110 | The download rate, measured with the configured thread count, converted to Mbps. |
| `SpeedTest.SpeedTestRunner.TestUploadSpeed` | SpeedTestLogger/SpeedTestRunner.cs:112-117 | The upload rate, measured with the configured thread count, converted to Mbps. |
| `SpeedTest.SpeedTestRunner.RunSpeedTest` | SpeedTestLogger/SpeedTestRunner.cs:23-66 | The run fails, with no record, exactly when no server is in the region. Otherwise the record is assembled from the selected server and that server's converted download and upload rates. |
| `SpeedTest.AssembleTestData` | SpeedTestLogger/SpeedTestRunner.cs:36-65 | The `Lat`/`Latitude` and `Lon`/`Longitude` aliases agree for client and server. Server host, id and ping equal the chosen server's host, id and latency. The client country is the region's code. The server country is the resolver applied to the server's country. The distance is within 0.5 of the server's distance. |
| `SpeedTest.AssembledRecordWellFormed` | SpeedTestLogger/SpeedTestRunner.cs:36-65 | For non-negative raw rates, the record's speeds are non-negative whole hundredths of a Mbps. Its server country is "XX" or the code of a supported catalog entry matching the server's country. |

## Left out

- The network library's calls (`GetSettings`, `TestServerLatency`, `TestDownloadSpeed`, `TestUploadSpeed`) are foreign code. They are oracle functions of the server, plus the thread count for downloads and uploads, and the settings are a constructor argument. The oracle answers a repeated probe of the same server object with the same value.
- Exceptions from the network library are not modelled: the oracle functions are total. A failing probe would abort the run in the source.
- `CultureInfo.GetCultures` and `new RegionInfo(lcid)` read the runtime locale database. They are replaced by the given `cultures` sequence, with each entry carrying the region data its LCID yields.
- `StringComparison.OrdinalIgnoreCase` is modelled as equality after ASCII lower-casing. Non-ASCII case mappings of the runtime are not modelled.
- `Rounding.ConvertToSpeedPerMbps`: computes on exact reals, not IEEE doubles. It does not model double rounding error or `Math.Round`'s pass-through of magnitudes of 1e16 and above.
- `Rounding.RoundDistance`: the result is an unbounded integer. It does not model the undefined result of the C# `(int)` cast for distances outside the 32-bit range.
- Null strings are not modelled: a null `Country` or English name cannot occur, since every string is a value.
- LINQ's lazy evaluation is not modelled. Its only effect is that `Take(10)` stops reading `Country` after the tenth match, which changes nothing observable.
- Server properties other than `Latency` are constant fields, because the core never writes them.
- `Console.WriteLine` progress output is I/O and is not modelled.
- SpeedTestLogger/Program.cs is not part of this model. It is entry-point plumbing: it loads configuration, reads the clock and builds a `TestResult` that is never submitted. Its `new Guid()` is the all-zero identifier, not a fresh one.
