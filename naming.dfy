/** How the collector builds dotted metric paths from document keys. */
module Naming {
  import opened Metrics

  /** The characters the pattern `[:\./]` matches. */
  predicate Reserved(c: char) {
    c == ':' || c == '.' || c == '/'
  }

  /** No character of `s` is one the sanitiser rewrites. */
  predicate Clean(s: string) {
    forall i | 0 <= i < |s| :: !Reserved(s[i])
  }

  /** `re.sub('[:\./]', '_', s)`: every `:`, `.` and `/` becomes `_`, every other character
      stays, so the result is a single path segment. */
  function Sanitize(s: string): (r: string)
    ensures |r| == |s|
    ensures forall i | 0 <= i < |s| :: r[i] == (if Reserved(s[i]) then '_' else s[i])
    ensures Clean(r)
  {
    if s == [] then []
    else [if Reserved(s[0]) then '_' else s[0]] + Sanitize(s[1..])
  }

  lemma SanitizeIdempotent(s: string)
    ensures Sanitize(Sanitize(s)) == Sanitize(s)
  {
  }

  /** The sanitiser leaves a string alone exactly when it holds none of the three characters. */
  lemma SanitizeFixed(s: string)
    ensures Sanitize(s) == s <==> Clean(s)
  {
    if Clean(s) {
      assert forall i | 0 <= i < |s| :: Sanitize(s)[i] == s[i];
    }
  }

  /** The segment a server-zone key becomes: `*` is renamed to `all` first, then sanitised.
      `all` is also what a zone literally named `all` gets, so the two share their metrics. */
  function ZoneSegment(key: string): (r: string)
    ensures Clean(r)
    ensures key == "*" ==> r == "all"
    ensures key != "*" ==> |r| == |key|
    ensures key != "*" ==> forall i | 0 <= i < |key| :: r[i] == (if Reserved(key[i]) then '_' else key[i])
    ensures r == "all" <==> key == "*" || key == "all"
  {
    var name := if key == "*" then "all" else key;
    var r := Sanitize(name);
    assert Clean(name) ==> r == name by { SanitizeFixed(name); }
    assert r == "all" ==> name == "all" by {
      if r == "all" {
        assert forall i | 0 <= i < 3 :: name[i] == r[i];
      }
    }
    r
  }

  /** `name` lies under the path `prefix`: it is `prefix`, a dot, then more. */
  predicate Within(prefix: string, name: string) {
    |prefix| < |name| && name[..|prefix|] == prefix && name[|prefix|] == '.'
  }

  lemma WithinDotted(prefix: string, suffix: string)
    requires suffix != [] && suffix[0] == '.'
    ensures Within(prefix, prefix + suffix)
  {
    assert (prefix + suffix)[..|prefix|] == prefix;
  }

  /** `<hostname>.vhosts.<segment>`: the hostname is kept as it is, and the segment after
      `.vhosts.` holds no separator. */
  function ZonePrefix(host: string, key: string): (r: string)
    ensures Within(host, r)
    ensures |r| >= |host| + 8 && r[|host|..|host| + 8] == ".vhosts."
    ensures Clean(r[|host| + 8..])
  {
    var r := host + ".vhosts." + ZoneSegment(key);
    assert r[|host| + 8..] == ZoneSegment(key);
    r
  }

  /** `<hostname>.upstreams.<group>.<server>`, both sanitised; the group key is not renamed.
      The hostname is kept as it is, and exactly one dot separates the group from the
      server. */
  function MemberPrefix(host: string, group: string, server: string): (r: string)
    ensures Within(host, r)
    ensures |r| == |host| + 12 + |group| + |server|
    ensures r[|host|..|host| + 11] == ".upstreams."
    ensures Clean(r[|host| + 11..|host| + 11 + |group|])
    ensures r[|host| + 11 + |group|] == '.'
    ensures Clean(r[|host| + 12 + |group|..])
  {
    var r := host + ".upstreams." + Sanitize(group) + "." + Sanitize(server);
    assert r[|host| + 11..|host| + 11 + |group|] == Sanitize(group);
    assert r[|host| + 12 + |group|..] == Sanitize(server);
    r
  }

  /** The upstream group `*` keeps its name, unlike the server zone `*`. */
  lemma UpstreamStarKept(host: string, server: string)
    ensures MemberPrefix(host, "*", server) == host + ".upstreams.*." + Sanitize(server)
    ensures ZonePrefix(host, "*") == host + ".vhosts.all"
  {
    assert Sanitize("*") == "*";
  }

  /** The `weight` flag: "0" when the member is down, "1" otherwise. */
  function WeightFlag(down: bool): (r: Value)
    ensures r.Str? && (r.s == "0" <==> down) && (r.s == "1" <==> !down)
  {
    Str(if down then "0" else "1")
  }

  /** The text after the last `.` of a path. */
  function LastSegment(s: string): string {
    if s == [] || s[|s| - 1] == '.' then [] else LastSegment(s[..|s| - 1]) + [s[|s| - 1]]
  }

  /** The text before the last `.` of a path (all of it when there is none). */
  function Parent(s: string): string {
    if s == [] then []
    else if s[|s| - 1] == '.' then s[..|s| - 1]
    else Parent(s[..|s| - 1])
  }

  /** Splitting a path at its last dot recovers a clean segment appended to it. */
  lemma {:induction false} SplitJoined(p: string, seg: string)
    requires Clean(seg)
    ensures LastSegment(p + "." + seg) == seg
    ensures Parent(p + "." + seg) == p
  {
    var s := p + "." + seg;
    if seg == [] {
      assert s[..|s| - 1] == p;
    } else {
      var init := seg[..|seg| - 1];
      assert Clean(init);
      assert s[..|s| - 1] == p + "." + init;
      assert s[|s| - 1] == seg[|seg| - 1];
      SplitJoined(p, init);
      assert init + [seg[|seg| - 1]] == seg;
    }
  }

  /** A zone prefix splits back into the hostname path and the zone's segment. */
  lemma ZonePrefixSplits(host: string, key: string)
    ensures LastSegment(ZonePrefix(host, key)) == ZoneSegment(key)
    ensures Parent(ZonePrefix(host, key)) == host + ".vhosts"
  {
    assert ZonePrefix(host, key) == (host + ".vhosts") + "." + ZoneSegment(key);
    SplitJoined(host + ".vhosts", ZoneSegment(key));
  }

  /** A member prefix splits back into the sanitised server, then the sanitised group. */
  lemma MemberPrefixSplits(host: string, group: string, server: string)
    ensures LastSegment(MemberPrefix(host, group, server)) == Sanitize(server)
    ensures LastSegment(Parent(MemberPrefix(host, group, server))) == Sanitize(group)
    ensures Parent(Parent(MemberPrefix(host, group, server))) == host + ".upstreams"
  {
    var p := (host + ".upstreams") + "." + Sanitize(group);
    assert MemberPrefix(host, group, server) == p + "." + Sanitize(server);
    SplitJoined(p, Sanitize(server));
    SplitJoined(host + ".upstreams", Sanitize(group));
  }
}
