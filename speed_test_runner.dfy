/**
  The measurement-and-assembly logic of `SpeedTestRunner`: choosing the best
  test server of the configured region, measuring against it, and building the
  `TestData` record.

  The network library is an oracle: `SpeedTestClient` answers latency,
  download and upload probes with fixed functions and keeps a log of the
  latency probes it was asked for. `GetSettings()` is the `settings` value the
  runner is constructed with.
*/
module SpeedTest {
  import opened Outcomes
  import opened Regions
  import opened Rounding
  import opened LatencyOrder

  /** How many region servers are probed at most (`Take(10)`). */
  const MaxProbedServers: nat := 10

  /** A candidate test server. Only `latency` is written by the runner. */
  class Server {
    const id: int
    const host: string
    const country: string
    const latitude: real
    const longitude: real
    const distance: real
    var latency: int

    constructor (id: int, host: string, country: string, latitude: real, longitude: real, distance: real)
      ensures this.id == id && this.host == host && this.country == country
      ensures this.latitude == latitude && this.longitude == longitude && this.distance == distance
      ensures latency == 0
    {
      this.id := id;
      this.host := host;
      this.country := country;
      this.latitude := latitude;
      this.longitude := longitude;
      this.distance := distance;
      latency := 0;
    }
  }

  /** What the measurement service reports about the client's connection. */
  datatype ClientInfo = ClientInfo(ip: string, latitude: real, longitude: real, isp: string)

  /** The session settings returned by `GetSettings()`. */
  datatype Settings = Settings(
    client: ClientInfo,
    servers: seq<Server>,
    downloadThreadsPerUrl: int,
    uploadThreadsPerUrl: int)

  /** The configured region (`RegionInfo`): its English name and its two-letter code. */
  datatype RegionInfo = RegionInfo(englishName: string, twoLetterIsoRegionName: string)

  datatype TestSpeeds = TestSpeeds(download: real, upload: real)

  datatype TestClient = TestClient(
    ip: string,
    latitude: real, lat: real,
    longitude: real, lon: real,
    isp: string,
    country: string)

  datatype TestServer = TestServer(
    host: string,
    latitude: real, lat: real,
    longitude: real, lon: real,
    country: string,
    distance: int,
    ping: int,
    id: int)

  /** The measurement record. */
  datatype TestData = TestData(speeds: TestSpeeds, client: TestClient, server: TestServer)

  /** The network measurement library, as an oracle. */
  class SpeedTestClient {
    const latencyOf: Server -> int
    const downloadOf: (Server, int) -> real
    const uploadOf: (Server, int) -> real
    /** The servers whose latency has been probed, in call order. */
    ghost var latencyProbes: seq<Server>

    constructor (latencyOf: Server -> int, downloadOf: (Server, int) -> real, uploadOf: (Server, int) -> real)
      ensures this.latencyOf == latencyOf && this.downloadOf == downloadOf && this.uploadOf == uploadOf
      ensures latencyProbes == []
    {
      this.latencyOf := latencyOf;
      this.downloadOf := downloadOf;
      this.uploadOf := uploadOf;
      latencyProbes := [];
    }

    method TestServerLatency(server: Server) returns (ms: int)
      modifies this
      ensures ms == latencyOf(server)
      ensures latencyProbes == old(latencyProbes) + [server]
    {
      ms := latencyOf(server);
      latencyProbes := latencyProbes + [server];
    }
  }

  /** The `Where(s => s.Country == _location.EnglishName)` step: ordinal, case-sensitive equality. */
  function LocalServers(servers: seq<Server>, englishName: string): (local: seq<Server>)
    ensures |local| <= |servers|
    ensures forall i :: 0 <= i < |local| ==> local[i].country == englishName
  {
    if servers == [] then []
    else (if servers[0].country == englishName then [servers[0]] else []) + LocalServers(servers[1..], englishName)
  }

  /** `LocalServers` keeps exactly the servers of the region. */
  lemma {:induction false} LocalServersMembers(servers: seq<Server>, englishName: string)
    ensures forall i :: 0 <= i < |LocalServers(servers, englishName)| ==>
      LocalServers(servers, englishName)[i] in servers && LocalServers(servers, englishName)[i].country == englishName
    ensures forall i :: 0 <= i < |servers| && servers[i].country == englishName ==>
      servers[i] in LocalServers(servers, englishName)
  {
    if servers != [] {
      var tail := servers[1..];
      LocalServersMembers(tail, englishName);
      assert servers == [servers[0]] + tail;
      var head := if servers[0].country == englishName then [servers[0]] else [];
      var local := LocalServers(servers, englishName);
      assert local == head + LocalServers(tail, englishName);
      forall i | 0 <= i < |local|
        ensures local[i] in servers && local[i].country == englishName
      {
        if i >= |head| {
          assert local[i] == LocalServers(tail, englishName)[i - |head|];
          assert local[i] in tail;
        }
      }
      forall i | 0 <= i < |servers| && servers[i].country == englishName
        ensures servers[i] in local
      {
        if i > 0 {
          assert servers[i] == tail[i - 1];
        }
      }
    }
  }

  /** `LocalServers` keeps list order: filtering a concatenation concatenates the filtered parts. */
  lemma {:induction false} LocalServersAppend(a: seq<Server>, b: seq<Server>, englishName: string)
    ensures LocalServers(a + b, englishName) == LocalServers(a, englishName) + LocalServers(b, englishName)
  {
    if a == [] {
      assert a + b == b;
    } else {
      var kept := if a[0].country == englishName then [a[0]] else [];
      assert (a + b)[0] == a[0];
      assert (a + b)[1..] == a[1..] + b;
      LocalServersAppend(a[1..], b, englishName);
      calc {
        LocalServers(a + b, englishName);
        kept + LocalServers(a[1..] + b, englishName);
        kept + (LocalServers(a[1..], englishName) + LocalServers(b, englishName));
        (kept + LocalServers(a[1..], englishName)) + LocalServers(b, englishName);
        LocalServers(a, englishName) + LocalServers(b, englishName);
      }
    }
  }

  function Take(s: seq<Server>, n: nat): seq<Server>
  {
    if |s| <= n then s else s[..n]
  }

  /** `Where(...).Take(10)`: the servers that get probed. */
  function TenLocalServers(servers: seq<Server>, englishName: string): (probed: seq<Server>)
    ensures |probed| <= MaxProbedServers && |probed| <= |LocalServers(servers, englishName)|
    ensures probed == LocalServers(servers, englishName)[..|probed|]
    ensures |probed| == MaxProbedServers || probed == LocalServers(servers, englishName)
  {
    Take(LocalServers(servers, englishName), MaxProbedServers)
  }

  /**
    The probed servers are the first min(10, #matches) servers of the region, in
    list order, and each of them is in the region.
  */
  lemma TenLocalServersSpec(servers: seq<Server>, englishName: string)
    ensures var local := LocalServers(servers, englishName);
      var probed := TenLocalServers(servers, englishName);
      && |probed| == (if |local| < MaxProbedServers then |local| else MaxProbedServers)
      && probed == local[..|probed|]
      && forall i :: 0 <= i < |probed| ==> probed[i] in servers && probed[i].country == englishName
  {
    LocalServersMembers(servers, englishName);
  }

  /** No server is probed exactly when no server is in the region. */
  lemma NothingProbedIffNoLocalServer(servers: seq<Server>, englishName: string)
    ensures TenLocalServers(servers, englishName) == []
        <==> forall i :: 0 <= i < |servers| ==> servers[i].country != englishName
  {
    LocalServersMembers(servers, englishName);
    var local := LocalServers(servers, englishName);
    if local != [] {
      assert |TenLocalServers(servers, englishName)| > 0;
      assert local[0] in servers;
      var i :| 0 <= i < |servers| && servers[i] == local[0];
      assert servers[i].country == englishName;
    }
  }

  /** The recorded latencies of a list of servers, position by position. */
  function Latencies(servers: seq<Server>): (lats: seq<int>)
    reads servers
    ensures |lats| == |servers|
    ensures forall i :: 0 <= i < |servers| ==> lats[i] == servers[i].latency
  {
    if servers == [] then [] else [servers[0].latency] + Latencies(servers[1..])
  }

  /**
    `OrderBy(s => s.Latency).ToList().First()`: the first server with the
    smallest latency, or `NoServerAvailable` when the list is empty.
  */
  method FirstByLatency(servers: seq<Server>) returns (r: Result<Server>)
    ensures servers == [] ==> r == Failure(NoServerAvailable)
    ensures servers != [] ==> r == Success(servers[OrderByLatency(Latencies(servers))[0]])
    ensures r.Success? ==>
      (exists i :: 0 <= i < |servers| && servers[i] == r.value
         && (forall j :: 0 <= j < |servers| ==> r.value.latency <= servers[j].latency)
         && (forall j :: 0 <= j < i ==> r.value.latency < servers[j].latency))
  {
    if servers == [] {
      return Failure(NoServerAvailable);
    }
    var best := 0;
    for i := 1 to |servers|
      invariant best < i
      invariant forall j :: 0 <= j < i ==> servers[best].latency <= servers[j].latency
      invariant forall j :: 0 <= j < best ==> servers[best].latency < servers[j].latency
    {
      if servers[i].latency < servers[best].latency {
        best := i;
      }
    }
    var lats := Latencies(servers);
    FirstLowestUnique(lats, best);
    HeadOfOrderByLatency(lats);
    r := Success(servers[best]);
  }

  /**
    The measurement record built from the settings, the configured region, the
    culture catalog, the chosen server and the two measured speeds.
  */
  function AssembleTestData(
    client: ClientInfo, location: RegionInfo, cultures: seq<Culture>,
    server: Server, download: real, upload: real): (d: TestData)
    reads server
    ensures AliasesAgree(d)
    ensures d.speeds == TestSpeeds(download, upload)
    ensures d.client.ip == client.ip && d.client.isp == client.isp
    ensures d.client.latitude == client.latitude && d.client.longitude == client.longitude
    ensures d.client.country == location.twoLetterIsoRegionName
    ensures d.server.host == server.host && d.server.id == server.id && d.server.ping == server.latency
    ensures d.server.latitude == server.latitude && d.server.longitude == server.longitude
    ensures d.server.country == GetIsoRegionNameFromEnglishName(cultures, server.country)
    ensures server.distance - 0.5 <= d.server.distance as real <= server.distance + 0.5
  {
    TestData(
      TestSpeeds(download, upload),
      TestClient(
        client.ip,
        client.latitude, client.latitude,
        client.longitude, client.longitude,
        client.isp,
        location.twoLetterIsoRegionName),
      TestServer(
        server.host,
        server.latitude, server.latitude,
        server.longitude, server.longitude,
        GetIsoRegionNameFromEnglishName(cultures, server.country),
        RoundDistance(server.distance),
        server.latency,
        server.id))
  }

  /** Both coordinate aliases of the client and of the server carry the same value. */
  predicate AliasesAgree(d: TestData)
  {
    && d.client.lat == d.client.latitude && d.client.lon == d.client.longitude
    && d.server.lat == d.server.latitude && d.server.lon == d.server.longitude
  }

  /**
    A record built from non-negative raw rates has non-negative speeds in whole
    hundredths of a Mbps, and its server country is "XX" or the code of a
    supported catalog entry whose name matches the server's country.
  */
  lemma AssembledRecordWellFormed(
    client: ClientInfo, location: RegionInfo, cultures: seq<Culture>,
    server: Server, rawDownload: real, rawUpload: real)
    requires rawDownload >= 0.0 && rawUpload >= 0.0
    ensures var d := AssembleTestData(client, location, cultures, server,
                                      ConvertToSpeedPerMbps(rawDownload), ConvertToSpeedPerMbps(rawUpload));
      && d.speeds.download >= 0.0 && d.speeds.upload >= 0.0
      && (d.speeds.download * 100.0).Floor as real == d.speeds.download * 100.0
      && (d.speeds.upload * 100.0).Floor as real == d.speeds.upload * 100.0
      && (d.server.country == UnknownIsoRegionName
          || exists c :: c in cultures && Supported(c) && EqualsIgnoreCase(c.englishName, server.country)
                         && c.twoLetterIsoRegionName == d.server.country)
  {
  }

  /** `SpeedTestRunner`: the settings, the configured region and the catalog are fixed at construction. */
  class SpeedTestRunner {
    const client: SpeedTestClient
    const settings: Settings
    const location: RegionInfo
    const cultures: seq<Culture>

    constructor (client: SpeedTestClient, settings: Settings, location: RegionInfo, cultures: seq<Culture>)
      ensures this.client == client && this.settings == settings
      ensures this.location == location && this.cultures == cultures
    {
      this.client := client;
      this.settings := settings;
      this.location := location;
      this.cultures := cultures;
    }

    /** The servers `FindBestTestServer` probes. */
    function Probed(): seq<Server>
    {
      TenLocalServers(settings.servers, location.englishName)
    }

    /**
      Probes each of the first ten servers of the region once, in list order,
      records each result in the server's `latency`, and returns the first one
      with the smallest latency; fails, having probed nothing, when the region
      has no server.
    */
    method FindBestTestServer() returns (r: Result<Server>)
      modifies client, Probed()
      ensures client.latencyProbes == old(client.latencyProbes) + Probed()
      ensures forall i :: 0 <= i < |Probed()| ==> Probed()[i].latency == client.latencyOf(Probed()[i])
      ensures forall s :: s in settings.servers && s !in Probed() ==> s.latency == old(s.latency)
      ensures r.Failure? <==> Probed() == []
      ensures r.Failure? ==> r.error == NoServerAvailable
      ensures r.Success? ==> r == Success(Probed()[FirstLowest(Latencies(Probed()))])
      ensures r.Success? ==> r.value.country == location.englishName
    {
      var probed := TenLocalServers(settings.servers, location.englishName);
      TenLocalServersSpec(settings.servers, location.englishName);
      ProbeLatencies(probed);
      r := FirstByLatency(probed);
      if r.Success? {
        HeadOfOrderByLatency(Latencies(probed));
        assert r.value in probed;
      }
    }

    /** The `Select(s => { s.Latency = TestServerLatency(s); return s; })` step, one probe per server in order. */
    method ProbeLatencies(probed: seq<Server>)
      modifies client, probed
      ensures client.latencyProbes == old(client.latencyProbes) + probed
      ensures forall i :: 0 <= i < |probed| ==> probed[i].latency == client.latencyOf(probed[i])
    {
      var i := 0;
      while i < |probed|
        invariant 0 <= i <= |probed|
        invariant client.latencyProbes == old(client.latencyProbes) + probed[..i]
        invariant forall j :: 0 <= j < i ==> probed[j].latency == client.latencyOf(probed[j])
      {
        var ms := client.TestServerLatency(probed[i]);
        probed[i].latency := ms;
        assert probed[..i + 1] == probed[..i] + [probed[i]];
        i := i + 1;
      }
      assert probed[..i] == probed;
    }

    method TestDownloadSpeed(server: Server) returns (mbps: real)
      ensures mbps == ConvertToSpeedPerMbps(client.downloadOf(server, settings.downloadThreadsPerUrl))
    {
      var speed := client.downloadOf(server, settings.downloadThreadsPerUrl);
      mbps := ConvertToSpeedPerMbps(speed);
    }

    method TestUploadSpeed(server: Server) returns (mbps: real)
      ensures mbps == ConvertToSpeedPerMbps(client.uploadOf(server, settings.uploadThreadsPerUrl))
    {
      var speed := client.uploadOf(server, settings.uploadThreadsPerUrl);
      mbps := ConvertToSpeedPerMbps(speed);
    }

    /**
      Selects the server, measures download and upload against it, and builds
      the record; fails without a record when no server is available.
    */
    method RunSpeedTest() returns (r: Result<TestData>)
      modifies client, Probed()
      ensures client.latencyProbes == old(client.latencyProbes) + Probed()
      ensures forall i :: 0 <= i < |Probed()| ==> Probed()[i].latency == client.latencyOf(Probed()[i])
      ensures r.Failure? <==> Probed() == []
      ensures r.Failure? ==> r.error == NoServerAvailable
      ensures r.Success? ==>
        var best := Probed()[FirstLowest(Latencies(Probed()))];
        r.value == AssembleTestData(
          settings.client, location, cultures, best,
          ConvertToSpeedPerMbps(client.downloadOf(best, settings.downloadThreadsPerUrl)),
          ConvertToSpeedPerMbps(client.uploadOf(best, settings.uploadThreadsPerUrl)))
    {
      var found := FindBestTestServer();
      if found.Failure? {
        return Failure(found.error);
      }
      var server := found.value;
      assert server == Probed()[FirstLowest(Latencies(Probed()))];
      var downloadSpeed := TestDownloadSpeed(server);
      var uploadSpeed := TestUploadSpeed(server);
      r := Success(AssembleTestData(settings.client, location, cultures, server, downloadSpeed, uploadSpeed));
    }
  }
}
