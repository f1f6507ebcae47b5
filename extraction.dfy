/** The publish calls the collector makes for a status document, in order, as a
    specification: each group is a sequence of steps, and `Execute` plays it out. */
module Extraction {
  import opened Document
  import opened Metrics
  import opened Naming

  /** The connection counters, in the order they are published. */
  const ConnectionCounters: seq<string> :=
    ["active", "reading", "writing", "waiting", "handled", "accepted", "requests"]

  /** Publishing the counter `name` from a looked-up field: the lookup of `key` fails when
      the field is absent. */
  function Field(name: string, v: Option<int>, key: string): (r: Step)
    ensures r.Emit? <==> v.Some?
    ensures r.Emit? ==> r.e == Emission(name, Counter, Int(v.value))
    ensures r.Missing? ==> r.field == key
  {
    match v
    case Some(x) => Emit(Emission(name, Counter, Int(x)))
    case None => Missing(key)
  }

  /** The seven lookups of `collect_connections`, in order: each emits a counter under the
      hostname exactly when its key is present, and otherwise fails naming that key. */
  function ConnectionSteps(host: string, conns: map<string, int>): (r: seq<Step>)
    ensures |r| == |ConnectionCounters|
    ensures forall i | 0 <= i < |r| :: r[i].Emit? <==> ConnectionCounters[i] in conns
    ensures forall i | 0 <= i < |r| :: r[i].Missing? ==> r[i].field == ConnectionCounters[i]
    ensures forall i | 0 <= i < |r| :: r[i].Emit? ==> r[i].e.kind == Counter && Within(host, r[i].e.name)
  {
    seq(|ConnectionCounters|, i requires 0 <= i < |ConnectionCounters| =>
      var c := ConnectionCounters[i];
      Field(host + ".conn." + c, if c in conns then Some(conns[c]) else None, c))
  }

  /** One gauge per response label, in iteration order; labels are not sanitised. */
  function ResponseGauges(prefix: string, d: Dict<int>): (r: seq<Emission>)
    ensures |r| == |d.keys|
    ensures forall j | 0 <= j < |r| :: r[j].kind == Gauge && Within(prefix, r[j].name)
  {
    seq(|d.keys|, j requires 0 <= j < |d.keys| =>
      Emission(prefix + ".responses." + d.keys[j], Gauge, Int(d.at[d.keys[j]])))
  }

  /** The response loop: a missing `responses` is a failing lookup of that key; once it is
      there the loop cannot fail, and it only emits gauges under the prefix. */
  function ResponseSteps(prefix: string, responses: Option<Dict<int>>): (r: seq<Step>)
    ensures AllEmit(r) <==> responses.Some?
    ensures responses.None? ==> r == [Missing("responses")]
    ensures forall j | 0 <= j < |r| :: r[j].Emit? ==> r[j].e.kind == Gauge
    ensures EmitsUnder(prefix, r)
  {
    match responses
    case None =>
      var r := [Missing("responses")];
      assert !r[0].Emit?;
      r
    case Some(d) =>
      var gauges := ResponseGauges(prefix, d);
      var r := seq(|gauges|, j requires 0 <= j < |gauges| => Emit(gauges[j]));
      EmitsUnderIndexed(prefix, r);
      r
  }

  /** Every emission among the steps is named under the prefix. */
  predicate EmitsUnder(prefix: string, steps: seq<Step>) {
    steps != [] ==>
      (steps[0].Emit? ==> Within(prefix, steps[0].e.name)) && EmitsUnder(prefix, steps[1..])
  }

  lemma {:induction false} EmitsUnderIndexed(prefix: string, steps: seq<Step>)
    ensures EmitsUnder(prefix, steps) <==>
              forall i | 0 <= i < |steps| :: steps[i].Emit? ==> Within(prefix, steps[i].e.name)
  {
    if steps != [] {
      EmitsUnderIndexed(prefix, steps[1..]);
      assert forall i | 1 <= i < |steps| :: steps[i] == steps[1..][i - 1];
    }
  }

  lemma {:induction false} EmitsUnderAppend(prefix: string, a: seq<Step>, b: seq<Step>)
    ensures EmitsUnder(prefix, a + b) <==> EmitsUnder(prefix, a) && EmitsUnder(prefix, b)
  {
    if a == [] {
      assert a + b == b;
    } else {
      assert (a + b)[1..] == a[1..] + b;
      EmitsUnderAppend(prefix, a[1..], b);
    }
  }

  /** Counters in front of the response loop: the whole plan lies under the prefix when each
      part does, and it cannot fail exactly when neither part can. */
  lemma CountersThenResponses(prefix: string, counters: seq<Step>, rs: seq<Step>)
    requires forall i | 0 <= i < |counters| :: counters[i].Emit? ==> Within(prefix, counters[i].e.name)
    requires EmitsUnder(prefix, rs)
    ensures EmitsUnder(prefix, counters + rs)
    ensures AllEmit(counters + rs) <==> AllEmit(counters) && AllEmit(rs)
  {
    AllEmitAppend(counters, rs);
    EmitsUnderIndexed(prefix, counters);
    EmitsUnderAppend(prefix, counters, rs);
  }

  /** The body of the zone loop: it fails exactly when one of the five fields is missing,
      and everything it emits lies under the zone's prefix. */
  function ZoneSteps(prefix: string, z: Zone): (r: seq<Step>)
    ensures AllEmit(r) <==>
              z.requestCounter.Some? && z.requestMsec.Some? && z.outBytes.Some? &&
              z.inBytes.Some? && z.responses.Some?
    ensures EmitsUnder(prefix, r)
  {
    var counters :=
      [ Field(prefix + ".requests", z.requestCounter, "requestCounter"),
        Field(prefix + ".reqtime", z.requestMsec, "requestMsec"),
        Field(prefix + ".sent", z.outBytes, "outBytes"),
        Field(prefix + ".rcvd", z.inBytes, "inBytes") ];
    WithinDotted(prefix, ".requests");
    WithinDotted(prefix, ".reqtime");
    WithinDotted(prefix, ".sent");
    WithinDotted(prefix, ".rcvd");
    assert AllEmit(counters) <==>
             counters[0].Emit? && counters[1].Emit? && counters[2].Emit? && counters[3].Emit?;
    CountersThenResponses(prefix, counters, ResponseSteps(prefix, z.responses));
    counters + ResponseSteps(prefix, z.responses)
  }

  /** The zone's lookups one at a time, ending with its response gauges. */
  lemma ZoneUnfold(prefix: string, z: Zone)
    ensures Execute(ZoneSteps(prefix, z)) ==
              Lookup(Field(prefix + ".requests", z.requestCounter, "requestCounter"),
              Lookup(Field(prefix + ".reqtime", z.requestMsec, "requestMsec"),
              Lookup(Field(prefix + ".sent", z.outBytes, "outBytes"),
              Lookup(Field(prefix + ".rcvd", z.inBytes, "inBytes"),
              Execute(ResponseSteps(prefix, z.responses))))))
  {
    var r := ResponseSteps(prefix, z.responses);
    var s1, s2, s3, s4 := Field(prefix + ".requests", z.requestCounter, "requestCounter"),
      Field(prefix + ".reqtime", z.requestMsec, "requestMsec"),
      Field(prefix + ".sent", z.outBytes, "outBytes"),
      Field(prefix + ".rcvd", z.inBytes, "inBytes");
    assert ZoneSteps(prefix, z) == [s1, s2, s3, s4] + r;
    ExecuteFour(s1, s2, s3, s4, r);
  }

  /** Present responses publish their gauges and cannot fail. */
  lemma ResponsesRun(prefix: string, d: Dict<int>)
    ensures Execute(ResponseSteps(prefix, Some(d))) == Run(ResponseGauges(prefix, d), None)
  {
    ExecuteAll(ResponseSteps(prefix, Some(d)));
  }

  /** The zones in the order their keys are iterated. */
  function ZoneParts(host: string, keys: seq<string>, at: map<string, Zone>): seq<seq<Step>>
    requires forall i | 0 <= i < |keys| :: keys[i] in at
  {
    seq(|keys|, i requires 0 <= i < |keys| => ZoneSteps(ZonePrefix(host, keys[i]), at[keys[i]]))
  }

  /** A zone holding every field the zone loop reads. */
  predicate ZoneWhole(z: Zone) {
    z.requestCounter.Some? && z.requestMsec.Some? && z.outBytes.Some? && z.inBytes.Some? &&
    z.responses.Some?
  }

  /** The body of `collect_server_zones`' `try`: the zones one after the other. It runs
      without a failing lookup exactly when every zone of the object is whole. */
  function ServerZonesSteps(host: string, d: Dict<Zone>): (r: seq<Step>)
    ensures AllEmit(r) <==> forall k | k in d.at :: ZoneWhole(d.at[k])
  {
    ZonePartsAllEmit(host, d.keys, d.at);
    Concat(ZoneParts(host, d.keys, d.at))
  }

  /** The zones, in key order, run without a failing lookup exactly when each is whole. */
  lemma ZonePartsAllEmit(host: string, keys: seq<string>, at: map<string, Zone>)
    requires forall i | 0 <= i < |keys| :: keys[i] in at
    ensures AllEmit(Concat(ZoneParts(host, keys, at))) <==>
              forall i | 0 <= i < |keys| :: ZoneWhole(at[keys[i]])
  {
    var parts := ZoneParts(host, keys, at);
    AllEmitConcat(parts);
    assert forall i | 0 <= i < |parts| :: AllEmit(parts[i]) <==> ZoneWhole(at[keys[i]]);
  }

  /** The body of the member loop: it fails exactly when one of the eight fields is
      missing, and everything it emits lies under the member's prefix. */
  function MemberSteps(host: string, group: string, m: Member): (r: seq<Step>)
    ensures AllEmit(r) <==>
              m.server.Some? && m.requestCounter.Some? && m.requestMsec.Some? &&
              m.responseMsec.Some? && m.outBytes.Some? && m.inBytes.Some? &&
              m.down.Some? && m.responses.Some?
    ensures m.server.None? ==> Execute(r) == Run([], Some("server"))
    ensures m.server.Some? ==> EmitsUnder(MemberPrefix(host, group, m.server.value), r)
  {
    match m.server
    case None =>
      var r := [Missing("server")];
      assert !r[0].Emit? && r[1..] == [];
      r
    case Some(server) => ServerSteps(MemberPrefix(host, group, server), m)
  }

  /** The member's steps once its `server` is known and its prefix built: five counters,
      the weight, then the responses, all under the prefix. */
  function ServerSteps(prefix: string, m: Member): (r: seq<Step>)
    ensures AllEmit(r) <==>
              m.requestCounter.Some? && m.requestMsec.Some? && m.responseMsec.Some? &&
              m.outBytes.Some? && m.inBytes.Some? && m.down.Some? && m.responses.Some?
    ensures EmitsUnder(prefix, r)
  {
    var counters :=
      [ Field(prefix + ".requests", m.requestCounter, "requestCounter"),
        Field(prefix + ".reqtime", m.requestMsec, "requestMsec"),
        Field(prefix + ".resptime", m.responseMsec, "responseMsec"),
        Field(prefix + ".sent", m.outBytes, "outBytes"),
        Field(prefix + ".rcvd", m.inBytes, "inBytes"),
        WeightStep(prefix, m.down) ];
    WithinDotted(prefix, ".requests");
    WithinDotted(prefix, ".reqtime");
    WithinDotted(prefix, ".resptime");
    WithinDotted(prefix, ".sent");
    WithinDotted(prefix, ".rcvd");
    assert AllEmit(counters) <==>
             counters[0].Emit? && counters[1].Emit? && counters[2].Emit? &&
             counters[3].Emit? && counters[4].Emit? && counters[5].Emit?;
    CountersThenResponses(prefix, counters, ResponseSteps(prefix, m.responses));
    counters + ResponseSteps(prefix, m.responses)
  }

  /** The weight step: the lookup of `down`, published as its flag. */
  function WeightStep(prefix: string, down: Option<bool>): (r: Step)
    ensures r.Emit? <==> down.Some?
    ensures r.Emit? ==> r.e.kind == Counter && Within(prefix, r.e.name) && r.e.value == WeightFlag(down.value)
    ensures r.Missing? ==> r.field == "down"
  {
    match down
    case Some(d) => Emit(Emission(prefix + ".weight", Counter, WeightFlag(d)))
    case None => Missing("down")
  }

  /** A present member's lookups one at a time, ending with its response gauges. */
  lemma MemberUnfold(host: string, group: string, m: Member)
    requires m.server.Some?
    ensures var prefix := MemberPrefix(host, group, m.server.value);
            Execute(MemberSteps(host, group, m)) ==
              Lookup(Field(prefix + ".requests", m.requestCounter, "requestCounter"),
              Lookup(Field(prefix + ".reqtime", m.requestMsec, "requestMsec"),
              Lookup(Field(prefix + ".resptime", m.responseMsec, "responseMsec"),
              Lookup(Field(prefix + ".sent", m.outBytes, "outBytes"),
              Lookup(Field(prefix + ".rcvd", m.inBytes, "inBytes"),
              Lookup(WeightStep(prefix, m.down),
              Execute(ResponseSteps(prefix, m.responses))))))))
  {
    var prefix := MemberPrefix(host, group, m.server.value);
    var r := ResponseSteps(prefix, m.responses);
    var s1, s2, s3 := Field(prefix + ".requests", m.requestCounter, "requestCounter"),
      Field(prefix + ".reqtime", m.requestMsec, "requestMsec"),
      Field(prefix + ".resptime", m.responseMsec, "responseMsec");
    var s4, s5, s6 := Field(prefix + ".sent", m.outBytes, "outBytes"),
      Field(prefix + ".rcvd", m.inBytes, "inBytes"),
      WeightStep(prefix, m.down);
    assert MemberSteps(host, group, m) == [s1] + ([s2] + ([s3] + ([s4] + ([s5] + ([s6] + r)))));
    ExecuteCons(s1, [s2] + ([s3] + ([s4] + ([s5] + ([s6] + r)))));
    ExecuteCons(s2, [s3] + ([s4] + ([s5] + ([s6] + r))));
    ExecuteCons(s3, [s4] + ([s5] + ([s6] + r)));
    ExecuteCons(s4, [s5] + ([s6] + r));
    ExecuteCons(s5, [s6] + r);
    ExecuteCons(s6, r);
  }

  function MemberParts(host: string, group: string, members: seq<Member>): seq<seq<Step>> {
    seq(|members|, j requires 0 <= j < |members| => MemberSteps(host, group, members[j]))
  }

  /** The upstream groups in the order their keys are iterated, each one's members in list order. */
  function UpstreamParts(host: string, d: Dict<seq<Member>>): seq<seq<Step>> {
    seq(|d.keys|, i requires 0 <= i < |d.keys| =>
      Concat(MemberParts(host, d.keys[i], d.at[d.keys[i]])))
  }

  /** A member holding every field the member loop reads. */
  predicate MemberWhole(m: Member) {
    m.server.Some? && m.requestCounter.Some? && m.requestMsec.Some? && m.responseMsec.Some? &&
    m.outBytes.Some? && m.inBytes.Some? && m.down.Some? && m.responses.Some?
  }

  /** A group's members run without a failing lookup exactly when every member is whole. */
  lemma GroupAllEmit(host: string, group: string, members: seq<Member>)
    ensures AllEmit(Concat(MemberParts(host, group, members))) <==>
              forall m | m in members :: MemberWhole(m)
  {
    var parts := MemberParts(host, group, members);
    AllEmitConcat(parts);
    assert forall j | 0 <= j < |parts| :: AllEmit(parts[j]) <==> MemberWhole(members[j]);
  }

  /** The body of `collect_upstreams`' `try`: the groups one after the other, each one's
      members in list order. It runs without a failing lookup exactly when every member of
      every group is whole. */
  function UpstreamsSteps(host: string, d: Dict<seq<Member>>): (r: seq<Step>)
    ensures AllEmit(r) <==> forall g | g in d.at :: forall m | m in d.at[g] :: MemberWhole(m)
  {
    var parts := UpstreamParts(host, d);
    AllEmitConcat(parts);
    forall i | 0 <= i < |parts|
      ensures AllEmit(parts[i]) <==> forall m | m in d.at[d.keys[i]] :: MemberWhole(m)
    {
      GroupAllEmit(host, d.keys[i], d.at[d.keys[i]]);
    }
    Concat(parts)
  }

  /** The `'serverZones' in status` branch: an absent key contributes nothing and cannot
      fail; a present one fails exactly when some zone is not whole. */
  function ZonesRun(host: string, zones: Option<Dict<Zone>>): (r: Run)
    ensures zones.None? ==> r == Run([], None)
    ensures zones.Some? ==> (r.fault.None? <==> forall k | k in zones.value.at :: ZoneWhole(zones.value.at[k]))
  {
    match zones
    case None => Run([], None)
    case Some(d) =>
      ExecuteAll(ServerZonesSteps(host, d));
      Execute(ServerZonesSteps(host, d))
  }

  /** The `'upstreamZones' in status` branch: an absent key contributes nothing and cannot
      fail; a present one fails exactly when some member of some group is not whole. */
  function UpstreamsRun(host: string, upstreams: Option<Dict<seq<Member>>>): (r: Run)
    ensures upstreams.None? ==> r == Run([], None)
    ensures upstreams.Some? ==>
              (r.fault.None? <==>
                 forall g | g in upstreams.value.at :: forall m | m in upstreams.value.at[g] :: MemberWhole(m))
  {
    match upstreams
    case None => Run([], None)
    case Some(d) =>
      ExecuteAll(UpstreamsSteps(host, d));
      Execute(UpstreamsSteps(host, d))
  }

  /** Where a `log.error` call comes from: the two group-level `except` clauses, and the
      `IOError` and catch-all clauses of the main handler. */
  datatype Handler = ServerZonesHandler | UpstreamsHandler | OpenHandler | CollectHandler

  /** One `log.error` call: its handler, and what it reports (the key whose lookup raised,
      the URL that could not be opened, or why the body could not be decoded). */
  datatype LogEntry = LogEntry(handler: Handler, detail: string)

  /** A group's `except` clause: at most one entry, there exactly when the group's run
      failed, reporting the failing key. */
  function Logged(handler: Handler, run: Run): (r: seq<LogEntry>)
    ensures |r| <= 1
    ensures r == [] <==> run.fault.None?
    ensures r != [] ==> r[0].handler == handler && r[0].detail == run.fault.value
  {
    if run.fault.Some? then [LogEntry(handler, run.fault.value)] else []
  }

  /** One cycle of `collect_nginx_vts`: the emissions, the group failures logged, and the
      key whose lookup escaped the extractor, if any. */
  datatype Cycle = Cycle(out: seq<Emission>, logged: seq<LogEntry>, escaped: Option<string>)

  /** One cycle. Nothing escapes exactly when `hostName`, `connections` and all seven
      counters are there; what escapes is one of those keys; at most one failure per
      group is logged. */
  function NginxVts(doc: Status): (r: Cycle)
    ensures r.escaped.None? <==>
              doc.hostName.Some? && doc.connections.Some? &&
              forall c | c in ConnectionCounters :: c in doc.connections.value
    ensures r.escaped.Some? ==> r.escaped.value in ["hostName", "connections"] + ConnectionCounters
    ensures |r.logged| <= 2
    ensures forall e | e in r.logged :: e.handler == ServerZonesHandler || e.handler == UpstreamsHandler
  {
    match doc.hostName
    case None => Cycle([], [], Some("hostName"))
    case Some(host) =>
      match doc.connections
      case None => Cycle([], [], Some("connections"))
      case Some(conns) =>
        var c := Execute(ConnectionSteps(host, conns));
        ExecuteAll(ConnectionSteps(host, conns));
        ExecutePrefix(ConnectionSteps(host, conns));
        if c.fault.Some? then Cycle(c.out, [], c.fault)
        else
          var z := ZonesRun(host, doc.serverZones);
          var u := UpstreamsRun(host, doc.upstreamZones);
          Cycle(c.out + z.out + u.out, Logged(ServerZonesHandler, z) + Logged(UpstreamsHandler, u), None)
  }

  /** With the connection counters complete, a cycle is the counters, then the zones, then
      the upstreams, and each group's failure is logged on its own. */
  lemma CycleOfGroups(doc: Status)
    requires doc.hostName.Some? && doc.connections.Some?
    requires Execute(ConnectionSteps(doc.hostName.value, doc.connections.value)).fault.None?
    ensures var host := doc.hostName.value;
            var z := ZonesRun(host, doc.serverZones);
            var u := UpstreamsRun(host, doc.upstreamZones);
            NginxVts(doc) ==
              Cycle(Execute(ConnectionSteps(host, doc.connections.value)).out + z.out + u.out,
                    Logged(ServerZonesHandler, z) + Logged(UpstreamsHandler, u), None)
  {
  }

  /** The emission for the i-th connection counter. */
  function ConnectionEmission(host: string, conns: map<string, int>, i: nat): Emission
    requires i < |ConnectionCounters| && ConnectionCounters[i] in conns
  {
    Emission(host + ".conn." + ConnectionCounters[i], Counter, Int(conns[ConnectionCounters[i]]))
  }

  /** With all seven counters present, exactly seven counters are published, in the fixed
      order, each carrying the document's value. */
  lemma ConnectionsComplete(host: string, conns: map<string, int>)
    requires forall c | c in ConnectionCounters :: c in conns
    ensures Execute(ConnectionSteps(host, conns)).fault == None
    ensures |Execute(ConnectionSteps(host, conns)).out| == 7
    ensures forall i | 0 <= i < 7 ::
              Execute(ConnectionSteps(host, conns)).out[i] == ConnectionEmission(host, conns, i)
  {
    var steps := ConnectionSteps(host, conns);
    assert forall i | 0 <= i < 7 :: steps[i] == Emit(ConnectionEmission(host, conns, i));
    ExecuteAll(steps);
  }

  /** A missing counter raises at its lookup: the counters before it stay published, and
      nothing after it is. */
  lemma ConnectionsStopAt(host: string, conns: map<string, int>, k: nat)
    requires k < |ConnectionCounters| && ConnectionCounters[k] !in conns
    requires forall i | 0 <= i < k :: ConnectionCounters[i] in conns
    ensures Execute(ConnectionSteps(host, conns)).fault == Some(ConnectionCounters[k])
    ensures |Execute(ConnectionSteps(host, conns)).out| == k
    ensures forall i | 0 <= i < k ::
              Execute(ConnectionSteps(host, conns)).out[i] == ConnectionEmission(host, conns, i)
  {
    var steps := ConnectionSteps(host, conns);
    assert forall i | 0 <= i < k :: steps[..k][i] == Emit(ConnectionEmission(host, conns, i));
    ExecuteFirstMissing(steps, k);
  }

  /** A complete zone publishes requests, reqtime, sent and rcvd, then one gauge per
      response label. */
  lemma ZoneComplete(prefix: string, z: Zone)
    requires z.requestCounter.Some? && z.requestMsec.Some? && z.outBytes.Some?
    requires z.inBytes.Some? && z.responses.Some?
    ensures Execute(ZoneSteps(prefix, z)).fault == None
    ensures Execute(ZoneSteps(prefix, z)).out ==
              [ Emission(prefix + ".requests", Counter, Int(z.requestCounter.value)),
                Emission(prefix + ".reqtime", Counter, Int(z.requestMsec.value)),
                Emission(prefix + ".sent", Counter, Int(z.outBytes.value)),
                Emission(prefix + ".rcvd", Counter, Int(z.inBytes.value)) ]
              + ResponseGauges(prefix, z.responses.value)
  {
    var steps := ZoneSteps(prefix, z);
    assert AllEmit(steps);
    ExecuteAll(steps);
  }

  /** Exactly one gauge per key of `responses`, named by the key as it is. */
  lemma OneGaugePerLabel(prefix: string, d: Dict<int>)
    ensures |ResponseGauges(prefix, d)| == |d.at|
    ensures forall e | e in ResponseGauges(prefix, d) ::
              e.kind == Gauge && exists k | k in d.at :: e == Emission(prefix + ".responses." + k, Gauge, Int(d.at[k]))
    ensures forall k | k in d.at ::
              Emission(prefix + ".responses." + k, Gauge, Int(d.at[k])) in ResponseGauges(prefix, d)
  {
    DictSize(d);
    var g := ResponseGauges(prefix, d);
    forall k | k in d.at
      ensures Emission(prefix + ".responses." + k, Gauge, Int(d.at[k])) in g
    {
      var j :| 0 <= j < |d.keys| && d.keys[j] == k;
      assert g[j] == Emission(prefix + ".responses." + k, Gauge, Int(d.at[k]));
    }
  }

  /** A complete upstream member publishes requests, reqtime, resptime, sent, rcvd, the
      weight flag, then one gauge per response label, all under its sanitised prefix. */
  lemma MemberComplete(host: string, group: string, m: Member)
    requires m.server.Some? && m.requestCounter.Some? && m.requestMsec.Some?
    requires m.responseMsec.Some? && m.outBytes.Some? && m.inBytes.Some?
    requires m.down.Some? && m.responses.Some?
    ensures Execute(MemberSteps(host, group, m)).fault == None
    ensures var prefix := MemberPrefix(host, group, m.server.value);
            Execute(MemberSteps(host, group, m)).out ==
              [ Emission(prefix + ".requests", Counter, Int(m.requestCounter.value)),
                Emission(prefix + ".reqtime", Counter, Int(m.requestMsec.value)),
                Emission(prefix + ".resptime", Counter, Int(m.responseMsec.value)),
                Emission(prefix + ".sent", Counter, Int(m.outBytes.value)),
                Emission(prefix + ".rcvd", Counter, Int(m.inBytes.value)),
                Emission(prefix + ".weight", Counter, Str(if m.down.value then "0" else "1")) ]
              + ResponseGauges(prefix, m.responses.value)
  {
    var steps := MemberSteps(host, group, m);
    assert AllEmit(steps);
    ExecuteAll(steps);
  }

  /** A cycle whose lookup escapes publishes only connection counters, in order, and logs
      no group failure. */
  lemma EscapedCycle(doc: Status)
    requires NginxVts(doc).escaped.Some?
    ensures NginxVts(doc).logged == []
    ensures |NginxVts(doc).out| < 7
    ensures forall i | 0 <= i < |NginxVts(doc).out| ::
              NginxVts(doc).out[i].kind == Counter &&
              NginxVts(doc).out[i].name == doc.hostName.value + ".conn." + ConnectionCounters[i]
  {
    if doc.hostName.Some? && doc.connections.Some? {
      var host, conns := doc.hostName.value, doc.connections.value;
      var steps := ConnectionSteps(host, conns);
      ExecutePrefix(steps);
      var n := |Execute(steps).out|;
      forall i | 0 <= i < n
        ensures Execute(steps).out[i].kind == Counter
        ensures Execute(steps).out[i].name == host + ".conn." + ConnectionCounters[i]
      {
        assert steps[..n][i] == steps[i];
      }
    }
  }

  /** Absent `serverZones` and `upstreamZones` contribute nothing: a document with all seven
      counters yields exactly the seven connection counters. */
  lemma AbsentGroupsSilent(doc: Status)
    requires doc.hostName.Some? && doc.connections.Some?
    requires forall c | c in ConnectionCounters :: c in doc.connections.value
    requires doc.serverZones.None? && doc.upstreamZones.None?
    ensures NginxVts(doc) == Cycle(Execute(ConnectionSteps(doc.hostName.value, doc.connections.value)).out, [], None)
    ensures |NginxVts(doc).out| == 7
  {
    ConnectionsComplete(doc.hostName.value, doc.connections.value);
  }

  /** A failure inside the server zones is logged and does not stop the upstreams: with
      complete connections and upstreams, the cycle publishes the seven connection counters
      first and every upstream emission last, whatever the zones did. */
  lemma GroupsIsolated(doc: Status)
    requires doc.hostName.Some? && doc.connections.Some?
    requires forall c | c in ConnectionCounters :: c in doc.connections.value
    requires doc.upstreamZones.Some?
    requires forall g | g in doc.upstreamZones.value.at :: forall m | m in doc.upstreamZones.value.at[g] :: MemberWhole(m)
    ensures var host := doc.hostName.value;
            var r := NginxVts(doc);
            var ups := Emissions(UpstreamsSteps(host, doc.upstreamZones.value));
            && r.escaped == None
            && |r.out| >= 7 + |ups|
            && (forall i | 0 <= i < 7 :: r.out[i] == ConnectionEmission(host, doc.connections.value, i))
            && r.out[|r.out| - |ups|..] == ups
            && r.logged == Logged(ServerZonesHandler, ZonesRun(host, doc.serverZones))
  {
    var host := doc.hostName.value;
    ConnectionsComplete(host, doc.connections.value);
    var c := Execute(ConnectionSteps(host, doc.connections.value));
    var z := ZonesRun(host, doc.serverZones);
    var ups := Emissions(UpstreamsSteps(host, doc.upstreamZones.value));
    ExecuteAll(UpstreamsSteps(host, doc.upstreamZones.value));
    assert NginxVts(doc).out == (c.out + z.out) + ups;
  }
}
