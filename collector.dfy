/** The collector object: its publish calls and error log are fields that its methods
    append to, and each extraction method is proved to publish exactly what the
    specification in `Extraction` plans, up to the first failing lookup. */
module Collector {
  import opened Document
  import opened Metrics
  import opened Naming
  import opened Extraction
  import opened Request

  /** What fetching and decoding the status page produced: the `IOError` of `urlopen`, any
      other exception raised by `urlopen` or `json.load` (with its message), or the decoded
      document. */
  datatype Fetched = Unreachable | Failed(reason: string) | Decoded(status: Status)

  class NginxvtsCollector {
    const config: Config
    /** Every `publish_counter` / `publish_gauge` call so far, in order. */
    var published: seq<Emission>
    /** Every `log.error` call so far, in order. */
    var errorLog: seq<LogEntry>

    constructor (config: Config)
      ensures this.config == config && published == [] && errorLog == []
    {
      this.config := config;
      published := [];
      errorLog := [];
    }

    method PublishCounter(name: string, value: Value)
      modifies this
      ensures published == old(published) + [Emission(name, Counter, value)]
      ensures errorLog == old(errorLog)
    {
      published := published + [Emission(name, Counter, value)];
    }

    method PublishGauge(name: string, value: Value)
      modifies this
      ensures published == old(published) + [Emission(name, Gauge, value)]
      ensures errorLog == old(errorLog)
    {
      published := published + [Emission(name, Gauge, value)];
    }

    method LogError(entry: LogEntry)
      modifies this
      ensures errorLog == old(errorLog) + [entry]
      ensures published == old(published)
    {
      errorLog := errorLog + [entry];
    }

    /** `collect_nginx_vts`: a missing `hostName`, `connections` or connection counter
        escapes (returned as the key); the two groups run only when present. */
    method CollectNginxVts(status: Status) returns (escaped: Option<string>)
      modifies this
      ensures published == old(published) + NginxVts(status).out
      ensures errorLog == old(errorLog) + NginxVts(status).logged
      ensures escaped == NginxVts(status).escaped
    {
      if status.hostName.None? {
        return Some("hostName");
      }
      var hostname := status.hostName.value;
      if status.connections.None? {
        return Some("connections");
      }
      escaped := CollectConnections(hostname, status.connections.value);
      if escaped.Some? {
        return;
      }
      ghost var c := Execute(ConnectionSteps(hostname, status.connections.value));
      ghost var z := ZonesRun(hostname, status.serverZones);
      ghost var u := UpstreamsRun(hostname, status.upstreamZones);
      CycleOfGroups(status);
      ghost var afterConnections := published;
      if status.serverZones.Some? {
        CollectServerZones(hostname, status.serverZones.value);
      }
      ghost var afterZones := published;
      assert afterZones == afterConnections + z.out;
      ghost var logZones := errorLog;
      assert logZones == old(errorLog) + Logged(ServerZonesHandler, z);
      if status.upstreamZones.Some? {
        CollectUpstreams(hostname, status.upstreamZones.value);
      }
      assert published == afterZones + u.out;
      assert errorLog == logZones + Logged(UpstreamsHandler, u);
      AppendAssoc(old(published), c.out, z.out, u.out);
      Assoc(old(errorLog), Logged(ServerZonesHandler, z), Logged(UpstreamsHandler, u));
    }

    /** `collect_connections`: the seven counters in their fixed order; a missing one raises. */
    method CollectConnections(hostname: string, conns: map<string, int>) returns (escaped: Option<string>)
      modifies this
      ensures published == old(published) + Execute(ConnectionSteps(hostname, conns)).out
      ensures escaped == Execute(ConnectionSteps(hostname, conns)).fault
      ensures errorLog == old(errorLog)
    {
      ghost var steps := ConnectionSteps(hostname, conns);
      for i := 0 to |ConnectionCounters|
        invariant published == old(published) + Execute(steps[..i]).out
        invariant Execute(steps[..i]).fault.None?
        invariant errorLog == old(errorLog)
      {
        var counter := ConnectionCounters[i];
        assert steps[..i + 1] == steps[..i] + [steps[i]];
        ExecuteAppend(steps[..i], [steps[i]]);
        if counter !in conns {
          ExecuteFaultSticks(steps[..i + 1], steps);
          return Some(counter);
        }
        PublishCounter(hostname + ".conn." + counter, Int(conns[counter]));
      }
      assert steps[..|ConnectionCounters|] == steps;
      return None;
    }

    /** `collect_server_zones`: the zones in key order; the first failing lookup is logged
        and ends the group. */
    method CollectServerZones(hostname: string, servers: Dict<Zone>)
      modifies this
      ensures published == old(published) + Execute(ServerZonesSteps(hostname, servers)).out
      ensures errorLog == old(errorLog) + Logged(ServerZonesHandler, Execute(ServerZonesSteps(hostname, servers)))
    {
      var fault := PublishZones(hostname, servers.keys, servers.at);
      if fault.Some? {
        LogError(LogEntry(ServerZonesHandler, fault.value));
      }
    }

    /** The loop of `collect_server_zones` over the keys in order; it stops at the first
        zone whose lookup fails and returns that key. */
    method PublishZones(hostname: string, keys: seq<string>, at: map<string, Zone>) returns (fault: Option<string>)
      requires forall i | 0 <= i < |keys| :: keys[i] in at
      modifies this
      ensures published == old(published) + Execute(Concat(ZoneParts(hostname, keys, at))).out
      ensures fault == Execute(Concat(ZoneParts(hostname, keys, at))).fault
      ensures errorLog == old(errorLog)
    {
      ghost var parts := ZoneParts(hostname, keys, at);
      for i := 0 to |keys|
        invariant published == old(published) + Execute(Concat(parts[..i])).out
        invariant Execute(Concat(parts[..i])).fault.None?
        invariant errorLog == old(errorLog)
      {
        var prefix, zone := ZonePrefix(hostname, keys[i]), at[keys[i]];
        assert parts[i] == ZoneSteps(prefix, zone);
        fault := PublishZone(prefix, zone);
        ExecuteConcatStep(old(published), parts, i, published);
        if fault.Some? {
          return;
        }
      }
      assert parts[..|keys|] == parts;
      return None;
    }

    /** The body of the zone loop: four counters, then one gauge per response label. */
    method PublishZone(prefix: string, zone: Zone) returns (fault: Option<string>)
      modifies this
      ensures published == old(published) + Execute(ZoneSteps(prefix, zone)).out
      ensures fault == Execute(ZoneSteps(prefix, zone)).fault
      ensures errorLog == old(errorLog)
    {
      ZoneUnfold(prefix, zone);
      ghost var r := Execute(ResponseSteps(prefix, zone.responses));
      ghost var r4 := Lookup(Field(prefix + ".rcvd", zone.inBytes, "inBytes"), r);
      ghost var r3 := Lookup(Field(prefix + ".sent", zone.outBytes, "outBytes"), r4);
      ghost var r2 := Lookup(Field(prefix + ".reqtime", zone.requestMsec, "requestMsec"), r3);
      ghost var r1 := Lookup(Field(prefix + ".requests", zone.requestCounter, "requestCounter"), r2);
      if zone.requestCounter.None? {
        return Some("requestCounter");
      }
      var e := Emission(prefix + ".requests", Counter, Int(zone.requestCounter.value));
      Advance(old(published), r1.out, published, e, r2.out);
      PublishCounter(e.name, e.value);
      if zone.requestMsec.None? {
        return Some("requestMsec");
      }
      e := Emission(prefix + ".reqtime", Counter, Int(zone.requestMsec.value));
      Advance(old(published), r1.out, published, e, r3.out);
      PublishCounter(e.name, e.value);
      if zone.outBytes.None? {
        return Some("outBytes");
      }
      e := Emission(prefix + ".sent", Counter, Int(zone.outBytes.value));
      Advance(old(published), r1.out, published, e, r4.out);
      PublishCounter(e.name, e.value);
      if zone.inBytes.None? {
        return Some("inBytes");
      }
      e := Emission(prefix + ".rcvd", Counter, Int(zone.inBytes.value));
      Advance(old(published), r1.out, published, e, r.out);
      PublishCounter(e.name, e.value);
      if zone.responses.None? {
        return Some("responses");
      }
      ResponsesRun(prefix, zone.responses.value);
      PublishResponses(prefix, zone.responses.value);
      return None;
    }

    /** The response loop of a zone or member: one gauge per label, in iteration order. */
    method PublishResponses(prefix: string, responses: Dict<int>)
      modifies this
      ensures published == old(published) + ResponseGauges(prefix, responses)
      ensures errorLog == old(errorLog)
    {
      ghost var gauges := ResponseGauges(prefix, responses);
      var respKeys := responses.keys;
      for j := 0 to |respKeys|
        invariant published == old(published) + gauges[..j]
        invariant errorLog == old(errorLog)
      {
        var counter := respKeys[j];
        PublishGauge(prefix + ".responses." + counter, Int(responses.at[counter]));
        assert gauges[..j + 1] == gauges[..j] + [gauges[j]];
      }
      assert gauges[..|respKeys|] == gauges;
    }

    /** `collect_upstreams`: the groups in key order, each one's members in list order; the
        first failing lookup is logged and ends the group. */
    method CollectUpstreams(hostname: string, upstreams: Dict<seq<Member>>)
      modifies this
      ensures published == old(published) + Execute(UpstreamsSteps(hostname, upstreams)).out
      ensures errorLog == old(errorLog) + Logged(UpstreamsHandler, Execute(UpstreamsSteps(hostname, upstreams)))
    {
      ghost var groups := UpstreamParts(hostname, upstreams);
      var keys := upstreams.keys;
      for i := 0 to |keys|
        invariant published == old(published) + Execute(Concat(groups[..i])).out
        invariant Execute(Concat(groups[..i])).fault.None?
        invariant errorLog == old(errorLog)
      {
        var upstream := keys[i];
        assert groups[i] == Concat(MemberParts(hostname, upstream, upstreams.at[upstream]));
        var fault := PublishGroup(hostname, upstream, upstreams.at[upstream]);
        ExecuteConcatStep(old(published), groups, i, published);
        if fault.Some? {
          LogError(LogEntry(UpstreamsHandler, fault.value));
          return;
        }
      }
      assert groups[..|keys|] == groups;
    }

    /** The member loop of one upstream group: the members in list order, stopping at the
        first failing lookup. */
    method PublishGroup(hostname: string, upstream: string, members: seq<Member>) returns (fault: Option<string>)
      modifies this
      ensures published == old(published) + Execute(Concat(MemberParts(hostname, upstream, members))).out
      ensures fault == Execute(Concat(MemberParts(hostname, upstream, members))).fault
      ensures errorLog == old(errorLog)
    {
      ghost var parts := MemberParts(hostname, upstream, members);
      for j := 0 to |members|
        invariant published == old(published) + Execute(Concat(parts[..j])).out
        invariant Execute(Concat(parts[..j])).fault.None?
        invariant errorLog == old(errorLog)
      {
        assert parts[j] == MemberSteps(hostname, upstream, members[j]);
        fault := PublishMember(hostname, upstream, members[j]);
        ExecuteConcatStep(old(published), parts, j, published);
        if fault.Some? {
          return;
        }
      }
      assert parts[..|members|] == parts;
      return None;
    }

    /** The body of the member loop: the prefix from the group key and the member's
        server, five counters, the weight flag, then one gauge per response label. */
    method PublishMember(hostname: string, upstream: string, member: Member) returns (fault: Option<string>)
      modifies this
      ensures published == old(published) + Execute(MemberSteps(hostname, upstream, member)).out
      ensures fault == Execute(MemberSteps(hostname, upstream, member)).fault
      ensures errorLog == old(errorLog)
    {
      if member.server.None? {
        return Some("server");
      }
      var prefix := MemberPrefix(hostname, upstream, member.server.value);
      MemberUnfold(hostname, upstream, member);
      ghost var r := Execute(ResponseSteps(prefix, member.responses));
      ghost var r6 := Lookup(WeightStep(prefix, member.down), r);
      ghost var r5 := Lookup(Field(prefix + ".rcvd", member.inBytes, "inBytes"), r6);
      ghost var r4 := Lookup(Field(prefix + ".sent", member.outBytes, "outBytes"), r5);
      ghost var r3 := Lookup(Field(prefix + ".resptime", member.responseMsec, "responseMsec"), r4);
      ghost var r2 := Lookup(Field(prefix + ".reqtime", member.requestMsec, "requestMsec"), r3);
      ghost var r1 := Lookup(Field(prefix + ".requests", member.requestCounter, "requestCounter"), r2);
      if member.requestCounter.None? {
        return Some("requestCounter");
      }
      var e := Emission(prefix + ".requests", Counter, Int(member.requestCounter.value));
      Advance(old(published), r1.out, published, e, r2.out);
      PublishCounter(e.name, e.value);
      if member.requestMsec.None? {
        return Some("requestMsec");
      }
      e := Emission(prefix + ".reqtime", Counter, Int(member.requestMsec.value));
      Advance(old(published), r1.out, published, e, r3.out);
      PublishCounter(e.name, e.value);
      if member.responseMsec.None? {
        return Some("responseMsec");
      }
      e := Emission(prefix + ".resptime", Counter, Int(member.responseMsec.value));
      Advance(old(published), r1.out, published, e, r4.out);
      PublishCounter(e.name, e.value);
      if member.outBytes.None? {
        return Some("outBytes");
      }
      e := Emission(prefix + ".sent", Counter, Int(member.outBytes.value));
      Advance(old(published), r1.out, published, e, r5.out);
      PublishCounter(e.name, e.value);
      if member.inBytes.None? {
        return Some("inBytes");
      }
      e := Emission(prefix + ".rcvd", Counter, Int(member.inBytes.value));
      Advance(old(published), r1.out, published, e, r6.out);
      PublishCounter(e.name, e.value);
      if member.down.None? {
        return Some("down");
      }
      var status := Str("1");
      if member.down.value {
        status := Str("0");
      }
      e := Emission(prefix + ".weight", Counter, status);
      Advance(old(published), r1.out, published, e, r.out);
      PublishCounter(e.name, e.value);
      if member.responses.None? {
        return Some("responses");
      }
      ResponsesRun(prefix, member.responses.value);
      PublishResponses(prefix, member.responses.value);
      return None;
    }

    /** `collect` after the request is built: an unreachable page, or any other failure of
        the fetch or of the decoding, is logged; otherwise one extraction cycle runs, and
        whatever escapes it is logged by the catch-all. Returns the request it built, or
        None when `int()` of the configured port raises, which happens before the `try`
        and escapes `collect` itself. */
    method Collect(response: Fetched) returns (request: Option<HttpRequest>)
      modifies this
      ensures request == BuildRequest(config)
      ensures request.None? || response.Unreachable? || response.Failed? ==>
                published == old(published)
      ensures request.None? ==> errorLog == old(errorLog)
      ensures request.Some? && response.Unreachable? ==>
                errorLog == old(errorLog) + [LogEntry(OpenHandler, request.value.url)]
      ensures request.Some? && response.Failed? ==>
                errorLog == old(errorLog) + [LogEntry(CollectHandler, response.reason)]
      ensures request.Some? && response.Decoded? ==>
                var cycle := NginxVts(response.status);
                && published == old(published) + cycle.out
                && errorLog == old(errorLog) + cycle.logged +
                     (if cycle.escaped.Some? then [LogEntry(CollectHandler, cycle.escaped.value)] else [])
    {
      request := BuildRequest(config);
      if request.None? {
        return;
      }
      match response
      case Unreachable =>
        LogError(LogEntry(OpenHandler, request.value.url));
      case Failed(reason) =>
        LogError(LogEntry(CollectHandler, reason));
      case Decoded(status) =>
        var escaped := CollectNginxVts(status);
        if escaped.Some? {
          LogError(LogEntry(CollectHandler, escaped.value));
        }
    }
  }
}
