# Nginx VTS collector — metric extraction model

This project models the metric-extraction layer of the Nginx VTS collector
(`nginxvts/nginxvts.py`). The collector reads the status document that the Nginx
virtual-host traffic-status module serves. It turns that document into an ordered stream
of `publish_counter` / `publish_gauge` calls with dotted metric names. It also logs the
failures that its two group-level `try` blocks catch.

The model has six modules:

- `Document` (document.dfy) is the decoded status document. Every key the collector looks
  up may be absent, so it is an `Option`. An object whose `keys()` the collector iterates
  is a `Dict`: a map together with a duplicate-free key order. Python 2 leaves that order
  arbitrary, so the model takes it as part of the input.
- `Metrics` (metrics.dfy) defines an emission `(name, kind, value)` and a planned sequence
  of `Step`s. A step is either a publish call or the dictionary lookup that raises
  `KeyError` in its place. `Execute` plays the steps out. The first failing lookup ends
  the sequence and names its key. Everything published before it stays published.
- `Naming` (naming.dfy) covers the `[:\./]` → `_` sanitiser, the `*` → `all` rename of
  server-zone keys, the zone and member prefixes, and the `weight` flag.
- `Extraction` (extraction.dfy) is the specification: the steps each group plans, and one
  full `collect_nginx_vts` cycle as a function of the document (`NginxVts`). It also holds
  the lemmas about order, counts, partial failure and group isolation.
- `Collector` (collector.dfy) is the `NginxvtsCollector` class. Its fields `published`
  and `errorLog` are appended to by `PublishCounter`, `PublishGauge` and `LogError`. Each
  source function is a method with the source's own loops. Each method is proved to
  leave exactly the state the `Extraction` specification describes.
- `Request` (request.dfy) covers how `collect` builds its request before fetching: the
  scheme from `str(req_ssl).lower()`, the optional `Host` header, and `int()` of the port.

The outcome of the HTTP fetch and of `json.load` is an input to `Collect`: unreachable
(`IOError`), failed with some other exception, or a decoded document.

Two behaviours of the code are easy to miss:

- An upstream group key `*` is not renamed to `all`. Only server-zone keys are
  (nginxvts/nginxvts.py:84-86 against 105-106). `Naming.UpstreamStarKept` states this.
- The hostname and the response labels are put into metric names without sanitising. So a
  name is not guaranteed to be free of `:` and `/`. Only the sanitised segments are, as
  `Naming.ZonePrefixSplits` and `Naming.MemberPrefixSplits` show.

## Model

| member | source | states |
|---|---|---|
| Document.DictSize | nginxvts/nginxvts.py:81-82 | iterating `keys()` visits exactly as many keys as the object has |
| Metrics.Execute | nginxvts/nginxvts.py:80-96 | a run of a group never publishes more than it planned |
| Metrics.ExecuteAll | nginxvts/nginxvts.py:87-94 | a run ends without a fault exactly when every lookup succeeds, and then it publishes every planned emission in order |
| Metrics.ExecuteFirstMissing | nginxvts/nginxvts.py:87-90 | when the first failing lookup is at position k, exactly the emissions before k are published and the fault names that lookup's key |
| Metrics.ExecutePrefix | nginxvts/nginxvts.py:80-96 | whatever happens, the output is a prefix of the planned emissions; on a fault, the step just after that prefix is the failing lookup |
| Metrics.ExecuteAppend | nginxvts/nginxvts.py:87-94 | running two step sequences in a row: a fault in the first skips the second, otherwise their outputs concatenate |
| Metrics.ExecuteFaultSticks | nginxvts/nginxvts.py:95-96 | once a prefix of the steps has raised, nothing after it runs |
| Metrics.ExecuteConcatStep | nginxvts/nginxvts.py:82-96 | one iteration of a loop over zones or members publishes after the iterations before it, and its fault, if any, is the fault of the whole loop |
| Metrics.AllEmitConcat | nginxvts/nginxvts.py:82-94 | a loop over zones or members runs without a failing lookup exactly when every iteration does |
| Metrics.ExecuteConcatStops | nginxvts/nginxvts.py:82-96 | in the loop over zones, the first zone that raises ends the group; the earlier zones' emissions and its own emissions before the failing lookup stay |
| Naming.Sanitize | nginxvts/nginxvts.py:86 | keeps the length; maps each `:`, `.` and `/` to `_` and leaves every other character; the result holds none of the three |
| Naming.SanitizeIdempotent | nginxvts/nginxvts.py:86 | sanitising twice gives the same as sanitising once |
| Naming.SanitizeFixed | nginxvts/nginxvts.py:86 | the sanitiser leaves a string unchanged exactly when it holds none of the three characters |
| Naming.ZoneSegment | nginxvts/nginxvts.py:83-86 | the key `*` becomes `all`; any other key keeps its length, and each of its characters becomes `_` if it is `:`, `.` or `/` and stays as it is otherwise; the segment holds none of the three; it is `all` exactly for the keys `*` and `all` |
| Naming.ZonePrefix | nginxvts/nginxvts.py:86 | a zone prefix is the hostname unchanged, then `.vhosts.`, then a segment holding no `:`, `.` or `/` |
| Naming.MemberPrefix | nginxvts/nginxvts.py:105-108 | a member prefix is the hostname unchanged, then `.upstreams.`, then a separator-free group segment as long as the group key, one dot, then a separator-free server segment; its length is the hostname's, the group's and the server's plus twelve |
| Naming.UpstreamStarKept | nginxvts/nginxvts.py:105-108 | the upstream group `*` keeps its `*` in the member prefix, while the zone `*` becomes `all` |
| Naming.WeightFlag | nginxvts/nginxvts.py:116-118 | the flag is the string "0" exactly when the member is down, and "1" exactly when it is not |
| Naming.ZonePrefixSplits | nginxvts/nginxvts.py:86 | splitting a zone prefix at its last dot gives back `<hostname>.vhosts` and the zone's segment |
| Naming.MemberPrefixSplits | nginxvts/nginxvts.py:105-108 | splitting a member prefix at its last two dots gives back `<hostname>.upstreams`, the sanitised group and the sanitised server |
| Extraction.ConnectionSteps | nginxvts/nginxvts.py:75-77 | seven lookups in the order active, reading, writing, waiting, handled, accepted, requests; the i-th emits exactly when its counter is in `connections`, and otherwise fails naming that counter; every emission is a counter under the hostname |
| Extraction.ResponseGauges | nginxvts/nginxvts.py:92-94 | one gauge per key of `responses`, each named under the prefix |
| Extraction.ResponseSteps | nginxvts/nginxvts.py:92-94 | the response loop fails exactly when `responses` is missing, and then it is the single failing lookup of `responses`, the key the handler logs; otherwise it emits only gauges under the prefix |
| Extraction.ZoneSteps | nginxvts/nginxvts.py:86-94 | a zone's plan runs without a failing lookup exactly when requestCounter, requestMsec, outBytes, inBytes and responses are all present, and everything it emits lies under the zone prefix |
| Extraction.MemberSteps | nginxvts/nginxvts.py:103-124 | a member's plan runs without a failing lookup exactly when server and the seven other fields are all present; a missing server publishes nothing and fails on `server`; otherwise everything emitted lies under the member prefix |
| Extraction.ServerSteps | nginxvts/nginxvts.py:110-124 | once the prefix is built, the plan runs without a failing lookup exactly when requestCounter, requestMsec, responseMsec, outBytes, inBytes, down and responses are present, and everything it emits lies under the prefix |
| Extraction.ServerZonesSteps | nginxvts/nginxvts.py:81-94 | the whole zone loop runs without a failing lookup exactly when every zone of `serverZones` has requestCounter, requestMsec, outBytes, inBytes and responses |
| Extraction.ZonePartsAllEmit | nginxvts/nginxvts.py:82-94 | the zones visited in key order run without a failing lookup exactly when each visited zone has all five fields |
| Extraction.UpstreamsSteps | nginxvts/nginxvts.py:101-124 | the whole upstream loop runs without a failing lookup exactly when every member of every group has server and the seven other fields |
| Extraction.GroupAllEmit | nginxvts/nginxvts.py:103-124 | one group's members run without a failing lookup exactly when each member has server and the seven other fields |
| Extraction.ZonesRun | nginxvts/nginxvts.py:68-69 | an absent `serverZones` publishes nothing and cannot fail; a present one fails exactly when some zone lacks one of its five fields |
| Extraction.UpstreamsRun | nginxvts/nginxvts.py:72-73 | an absent `upstreamZones` publishes nothing and cannot fail; a present one fails exactly when some member of some group lacks one of its eight fields |
| Extraction.Logged | nginxvts/nginxvts.py:95-96 | a group's handler (here the zones'; the upstreams' at lines 126-127 is the same) logs at most one entry, exactly when the group raised, naming that handler and the failing key |
| Extraction.WeightStep | nginxvts/nginxvts.py:116-120 | the weight is published exactly when `down` is present, as a counter under the prefix with the value "0" when down and "1" otherwise; a missing `down` fails naming it |
| Extraction.NginxVts | nginxvts/nginxvts.py:60-73 | nothing escapes a cycle exactly when `hostName`, `connections` and all seven counters are present; what escapes is one of those keys; at most two failures are logged, each by the server-zones or the upstreams handler |
| Extraction.ZoneUnfold | nginxvts/nginxvts.py:87-94 | a zone's plan is its four lookups one at a time, then its responses |
| Extraction.ResponsesRun | nginxvts/nginxvts.py:92-94 | present responses publish one gauge per label and cannot raise |
| Extraction.MemberUnfold | nginxvts/nginxvts.py:110-124 | a member's plan is its five counter lookups, the `down` lookup, then its responses |
| Extraction.CycleOfGroups | nginxvts/nginxvts.py:60-73 | once the connection counters are complete, a cycle is the counters, then the zones, then the upstreams, and each group's failure is logged separately |
| Extraction.ConnectionsComplete | nginxvts/nginxvts.py:75-77 | with all seven counters present, exactly seven counters are published: active, reading, writing, waiting, handled, accepted, requests, each named `<hostname>.conn.<counter>` with the document's value |
| Extraction.ConnectionsStopAt | nginxvts/nginxvts.py:75-77 | when counter k is the first missing one, the k counters before it are published in order and its name is the fault |
| Extraction.ZoneComplete | nginxvts/nginxvts.py:87-94 | a complete zone publishes `requests`, `reqtime`, `sent`, `rcvd` from requestCounter, requestMsec, outBytes, inBytes, then its response gauges |
| Extraction.OneGaugePerLabel | nginxvts/nginxvts.py:92-94 | exactly one gauge per key of `responses`, named `<prefix>.responses.<label>` with the label unsanitised; the set of gauges depends only on the object, not on the key order |
| Extraction.MemberComplete | nginxvts/nginxvts.py:103-124 | a complete member publishes `requests`, `reqtime`, `resptime`, `sent`, `rcvd`, then `weight` ("0" when down, "1" otherwise), then its response gauges, all under `<hostname>.upstreams.<group>.<server>` |
| Extraction.EscapedCycle | nginxvts/nginxvts.py:60-65 | when `hostName`, `connections` or a counter is missing, the failure escapes the extractor; fewer than seven connection counters are published, in order, and nothing is logged |
| Extraction.AbsentGroupsSilent | nginxvts/nginxvts.py:67-73 | absent `serverZones` and `upstreamZones` contribute nothing |
| Extraction.GroupsIsolated | nginxvts/nginxvts.py:67-73 | whatever the server zones do, complete connections and upstreams are published in full, the upstreams last, and only a zone failure is logged |
| Collector.NginxvtsCollector.PublishCounter | nginxvts/nginxvts.py:77 | one counter is appended to the published stream |
| Collector.NginxvtsCollector.PublishGauge | nginxvts/nginxvts.py:94 | one gauge is appended to the published stream |
| Collector.NginxvtsCollector.LogError | nginxvts/nginxvts.py:95-96 | one entry is appended to the error log |
| Collector.NginxvtsCollector.CollectNginxVts | nginxvts/nginxvts.py:60-73 | publishes and logs exactly what the cycle `NginxVts` specifies, and returns the key whose lookup escaped |
| Collector.NginxvtsCollector.CollectConnections | nginxvts/nginxvts.py:75-77 | publishes exactly the run of the seven connection lookups and returns its fault |
| Collector.NginxvtsCollector.CollectServerZones | nginxvts/nginxvts.py:79-96 | publishes exactly the run of all zones in key order, and logs its fault once if there is one |
| Collector.NginxvtsCollector.PublishZones | nginxvts/nginxvts.py:81-94 | publishes exactly the run of the zones in key order, stopping at the first failing lookup, and returns its key |
| Collector.NginxvtsCollector.PublishZone | nginxvts/nginxvts.py:83-94 | publishes exactly the run of one zone's steps and returns its fault |
| Collector.NginxvtsCollector.PublishResponses | nginxvts/nginxvts.py:92-94 | appends exactly one gauge per response label, in key order |
| Collector.NginxvtsCollector.CollectUpstreams | nginxvts/nginxvts.py:99-127 | publishes exactly the run of all groups in key order, each group's members in list order, and logs its fault once if there is one |
| Collector.NginxvtsCollector.PublishGroup | nginxvts/nginxvts.py:103-124 | publishes exactly the run of one group's members in list order and returns its fault |
| Collector.NginxvtsCollector.PublishMember | nginxvts/nginxvts.py:105-124 | publishes exactly the run of one member's steps, with the `server` lookup first, and returns its fault |
| Collector.NginxvtsCollector.Collect | nginxvts/nginxvts.py:130-152 | builds the request from the configuration; an unreachable page logs the URL, any other failure of the fetch or of `json.load` logs its message, a decoded document runs one cycle and a key that escapes it is logged by the catch-all handler; a port `int()` rejects ends the call before the `try` |
| Request.ParseDecimal | nginxvts/nginxvts.py:143 | `int()` reads back the decimal text of any integer |
| Request.ParseInt | nginxvts/nginxvts.py:143 | `int()` of a string can only succeed on text holding a decimal digit |
| Request.ParseIntNumeral | nginxvts/nginxvts.py:143 | `int()` of a string gives n exactly when the string is a numeral for n: whitespace, an optional `-` or `+`, whitespace, one or more digits, whitespace, with n the digits' value, negated after `-` |
| Request.ParsedIsNumeral | nginxvts/nginxvts.py:143 | whatever `int()` accepts is a numeral for the value it returns |
| Request.NumeralIsParsed | nginxvts/nginxvts.py:143 | every numeral is accepted by `int()` with its value |
| Request.Decimal | nginxvts/nginxvts.py:143 | `%i` writes an integer as `-` exactly when it is negative, then one or more digits without a leading zero (except for 0 itself) whose value is its magnitude |
| Request.PyInt | nginxvts/nginxvts.py:143 | `int()` of a setting: a boolean gives 1 or 0, a number itself, and a string gives n exactly when it is a numeral for n; only a string can be rejected |
| Request.PyStr | nginxvts/nginxvts.py:139 | `str()` of a setting: a string is itself, a boolean `True` or `False`, and a number exactly its `%i` decimal text (`Decimal`), which `int()` reads back as that number |
| Request.Lower | nginxvts/nginxvts.py:132 | `lower()` keeps the length and lowers each character on its own |
| Request.ParseDecimalNat | nginxvts/nginxvts.py:143 | `int()` reads a string of decimal digits back as its value |
| Request.SignThenSpaces | nginxvts/nginxvts.py:143 | `int()` accepts whitespace between the sign and the digits: a sign, any whitespace, then the digits of n read back as n or -n |
| Request.PortWithoutDigitsRaises | nginxvts/nginxvts.py:143 | a port setting with no digit in it stops the request from being built |
| Request.PortTextSameAsNumber | nginxvts/nginxvts.py:143 | a port given as the text of a number gives the same URL as the number itself, and a numeric port always gives a request |
| Request.Scheme | nginxvts/nginxvts.py:132-135 | the scheme is always `https` or `http` |
| Request.Headers | nginxvts/nginxvts.py:138-141 | the headers hold at most the key `Host`; it is there exactly when a host header is configured, with the `str()` of that setting as its value |
| Request.BuildRequest | nginxvts/nginxvts.py:143-145 | a request is built exactly when `int()` accepts the port; its headers are the configured ones; its URL is the scheme, `://`, the host and `:`, then exactly the `%i` text (`Decimal`) of `int()` of the port, which `int()` reads back as that port, then the path |
| Request.SchemeOfFlagOrNumber | nginxvts/nginxvts.py:132-135 | a boolean `req_ssl` selects https exactly when it is true; a number never does |
| Request.SchemeOfText | nginxvts/nginxvts.py:132-135 | a string `req_ssl` selects https exactly when it spells `true` in any mix of cases |

## Left out

- The HTTP fetch (`urllib2.Request`, `urlopen`) and `json.load` are network I/O and a library parser. Their outcome is the `Fetched` parameter of `Collect`.
- The publisher in `diamond.collector.Collector`: timestamping, precision formatting and transport. `publish_counter` and `publish_gauge` are modelled only as appends to `published`.
- The text of the `log.error` messages. An entry records which handler logged it and the detail it reports. For a `KeyError` the detail is the key, not Python's quoted rendering of it.
- `get_default_config_help` and `get_default_config` are static configuration tables with no logic.
- Values of a type the collector does not expect are not modelled. This covers a non-numeric counter, a `responses` that is not an object, a non-string `server` that makes `re.sub` raise `TypeError`, and a `down` that is not a boolean. The model only has failures from missing keys. Counter values are integers.
- The order of `keys()` is an input. Order independence is proved for the set of response gauges (`Extraction.OneGaugePerLabel`). For whole zone and upstream groups it is not quantified over.
- `int()` on the port: only ASCII whitespace (around the text and between the sign and the digits), an optional sign and ASCII digits are modelled. Settings are booleans, integers or strings. A floating-point setting, which `int()` truncates, is not modelled.
- `str.lower()` only lowers ASCII letters.
- Exceptions raised inside the publisher or the logger themselves are not modelled.
- There is no concurrency. One cycle runs to completion.
