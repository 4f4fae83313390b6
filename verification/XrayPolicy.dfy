/** What the node forces into an xray configuration when it loads it: its own statistics policy,
    merged deeply over the configured one, its API inbound and the rule that routes it. */
module XrayPolicy {
  import opened Model

  /** A JSON value; `Scalar` stands for null, numbers and strings. */
  datatype Json =
    | Scalar(text: string)
    | Bool(on: bool)
    | List(items: seq<Json>)
    | Object(fields: map<string, Json>)

  function Merge(base: Json, override: Json): (r: Json)
    requires base.Object? && override.Object?
    ensures r.Object?
    decreases override
  {
    Object(map k | k in base.fields.Keys + override.fields.Keys ::
      if k !in override.fields then base.fields[k]
      else if override.fields[k].Object? && k in base.fields && base.fields[k].Object? then
        Merge(base.fields[k], override.fields[k])
      else override.fields[k])
  }

  /** What stands at the end of a path of field names. */
  function At(json: Json, path: seq<string>): Option<Json>
    decreases |path|
  {
    if path == [] then Some(json)
    else if json.Object? && path[0] in json.fields then At(json.fields[path[0]], path[1..])
    else None
  }

  /** Following the path ends at a value, or gets stuck at one that is not an object. */
  predicate Covers(json: Json, path: seq<string>)
    decreases |path|
  {
    path == [] || !json.Object? || (path[0] in json.fields && Covers(json.fields[path[0]], path[1..]))
  }

  /** The merged object has a leaf exactly where the override has it, or where the base has it and
      the override covers neither that place nor a part of the way to it. */
  lemma {:induction false} MergeLeaf(base: Json, override: Json, path: seq<string>, leaf: Json)
    requires base.Object? && override.Object? && !leaf.Object?
    ensures At(Merge(base, override), path) == Some(leaf)
       <==> At(override, path) == Some(leaf) || (At(base, path) == Some(leaf) && !Covers(override, path))
    decreases |path|
  {
    if path == [] {
    } else {
      var k := path[0];
      if k in override.fields && override.fields[k].Object? && k in base.fields && base.fields[k].Object? {
        MergeLeaf(base.fields[k], override.fields[k], path[1..], leaf);
      }
    }
  }

  lemma {:induction false} MergeItself(json: Json)
    requires json.Object?
    ensures Merge(json, json) == json
  {
    forall k | k in json.fields && json.fields[k].Object? ensures Merge(json.fields[k], json.fields[k]) == json.fields[k] {
      MergeItself(json.fields[k]);
    }
  }

  /** Forcing the same settings again changes nothing. */
  lemma {:induction false} MergeTwice(base: Json, override: Json)
    requires base.Object? && override.Object?
    ensures Merge(Merge(base, override), override) == Merge(base, override)
    decreases override
  {
    var once := Merge(base, override);
    var twice := Merge(once, override);
    forall k | k in once.fields ensures twice.fields[k] == once.fields[k] {
      if k in override.fields && override.fields[k].Object? {
        if k in base.fields && base.fields[k].Object? {
          MergeTwice(base.fields[k], override.fields[k]);
        } else {
          MergeItself(override.fields[k]);
        }
      }
    }
    assert twice.fields == once.fields;
  }

  /** The merge is not associative: a leaf in the middle hides an object on its left in one order
      only. */
  lemma MergeNotAssociative()
    returns (a: Json, b: Json, c: Json)
    ensures a.Object? && b.Object? && c.Object? && Merge(Merge(a, b), c) != Merge(a, Merge(b, c))
  {
    a := Object(map["x" := Object(map["p" := Bool(true)])]);
    b := Object(map["x" := Bool(true)]);
    c := Object(map["x" := Object(map["q" := Bool(true)])]);
    assert Merge(a, b).fields["x"] == Bool(true) && Merge(b, c).fields["x"] == c.fields["x"];
    assert Merge(Merge(a, b), c).fields["x"] == c.fields["x"];
    assert Merge(a, Merge(b, c)).fields["x"] == Merge(a.fields["x"], c.fields["x"]);
    assert "p" in Merge(a.fields["x"], c.fields["x"]).fields;
  }

  lemma MergeFields(base: Json, override: Json)
    requires base.Object? && override.Object?
    ensures Merge(base, override).fields.Keys == base.fields.Keys + override.fields.Keys
    ensures forall k :: k in base.fields && k !in override.fields ==> Merge(base, override).fields[k] == base.fields[k]
  {
  }

  lemma MergeField(base: Json, override: Json, k: string)
    requires base.Object? && override.Object? && k in override.fields
    ensures k in Merge(base, override).fields
    ensures var b, o := base.fields, override.fields;
            Merge(base, override).fields[k]
            == if o[k].Object? && k in b && b[k].Object? then Merge(b[k], o[k]) else o[k]
  {
  }

  method MergeMap(base: Json, override: Json) returns (out: Json)
    requires base.Object? && override.Object?
    ensures out == Merge(base, override)
    decreases override
  {
    hide Merge;
    MergeFields(base, override);
    ghost var merged := Merge(base, override).fields;
    var fields := base.fields;
    var left := override.fields.Keys;
    while left != {}
      invariant left <= override.fields.Keys
      invariant fields.Keys == base.fields.Keys + (override.fields.Keys - left)
      invariant forall k :: k in fields ==> fields[k] == if k in left then base.fields[k] else merged[k]
      decreases |left|
    {
      var k :| k in left;
      left := left - {k};
      MergeField(base, override, k);
      var value := override.fields[k];
      if value.Object? && k in fields && fields[k].Object? {
        value := MergeMap(fields[k], value);
      }
      fields := fields[k := value];
    }
    assert fields == merged;
    return Object(fields);
  }

  function Forced(): map<string, Json> {
    map["levels" := Object(map["0" := Object(map["statsUserUplink" := Bool(true), "statsUserDownlink" := Bool(true)])]),
        "system" := Object(map[
          "statsInboundDownlink" := Bool(false), "statsInboundUplink" := Bool(false),
          "statsOutboundDownlink" := Bool(true), "statsOutboundUplink" := Bool(true)])]
  }

  /** `policy` has the forced leaves, and of the configured ones those that the forced settings do
      not cover, and no others. */
  ghost predicate Enforced(configured: map<string, Json>, policy: Json) {
    policy.Object? && forall path, leaf: Json :: !leaf.Object? ==>
      (At(policy, path) == Some(leaf)
       <==> || At(Object(Forced()), path) == Some(leaf)
            || (At(Object(configured), path) == Some(leaf) && !Covers(Object(Forced()), path)))
  }

  lemma MergeEnforces(configured: map<string, Json>)
    ensures Enforced(configured, Merge(Object(configured), Object(Forced())))
  {
    hide Merge, Forced, At, Covers;
    forall path, leaf: Json | !leaf.Object?
      ensures At(Merge(Object(configured), Object(Forced())), path) == Some(leaf)
         <==> || At(Object(Forced()), path) == Some(leaf)
              || (At(Object(configured), path) == Some(leaf) && !Covers(Object(Forced()), path))
    {
      MergeLeaf(Object(configured), Object(Forced()), path, leaf);
    }
  }

  lemma Down(json: Json, name: string, rest: seq<string>)
    requires json.Object?
    ensures At(json, [name] + rest) == if name in json.fields then At(json.fields[name], rest) else None
    ensures Covers(json, [name] + rest) <==> name in json.fields && Covers(json.fields[name], rest)
  {
    assert ([name] + rest)[1..] == rest;
  }

  /** Whatever the configured policy says, the traffic of the users of level 0 is counted. */
  lemma TrafficIsCounted(configured: map<string, Json>, policy: Json)
    requires Enforced(configured, policy)
    ensures At(policy, ["levels"] + (["0"] + ["statsUserUplink"])) == Some(Bool(true))
    ensures At(policy, ["levels"] + (["0"] + ["statsUserDownlink"])) == Some(Bool(true))
  {
    hide At, Covers;
    var levels := Forced()["levels"];
    forall name | name in {"statsUserUplink", "statsUserDownlink"}
      ensures At(Object(Forced()), ["levels"] + (["0"] + [name])) == Some(Bool(true))
    {
      Down(Object(Forced()), "levels", ["0"] + [name]);
      Down(levels, "0", [name]);
      Down(levels.fields["0"], name, []);
      assert [name] + [] == [name];
      Here(Bool(true));
    }
  }

  /** And the totals of the node: those of what it sends out and takes in, but not of its inbounds. */
  lemma SystemCounters(configured: map<string, Json>, policy: Json)
    requires Enforced(configured, policy)
    ensures At(policy, ["system"] + ["statsInboundDownlink"]) == At(policy, ["system"] + ["statsInboundUplink"]) == Some(Bool(false))
    ensures At(policy, ["system"] + ["statsOutboundDownlink"]) == At(policy, ["system"] + ["statsOutboundUplink"]) == Some(Bool(true))
  {
    hide At, Covers, Enforced;
    SystemLeaf(configured, policy, "statsInboundDownlink");
    SystemLeaf(configured, policy, "statsInboundUplink");
    SystemLeaf(configured, policy, "statsOutboundDownlink");
    SystemLeaf(configured, policy, "statsOutboundUplink");
  }

  lemma SystemLeaf(configured: map<string, Json>, policy: Json, name: string)
    requires Enforced(configured, policy) && name in Forced()["system"].fields
    ensures At(policy, ["system"] + [name]) == Some(Forced()["system"].fields[name])
  {
    hide At, Covers;
    var system := Forced()["system"];
    Down(Object(Forced()), "system", [name]);
    Down(system, name, []);
    assert [name] + [] == [name];
    Here(system.fields[name]);
  }

  lemma Here(json: Json)
    ensures At(json, []) == Some(json)
  {
  }

  /** And what it says about any other level stands as it is. */
  lemma OtherLevelsStand(configured: map<string, Json>, policy: Json, level: string, rest: seq<string>, leaf: Json)
    requires Enforced(configured, policy) && !leaf.Object? && level != "0"
    ensures At(policy, ["levels"] + ([level] + rest)) == Some(leaf)
       <==> At(Object(configured), ["levels"] + ([level] + rest)) == Some(leaf)
  {
    hide At, Covers;
    Down(Object(Forced()), "levels", [level] + rest);
    Down(Forced()["levels"], level, rest);
  }

  const API_RULE := Object(map[
    "inboundTag" := List([Scalar("API_INBOUND")]), "outboundTag" := Scalar("API"), "type" := Scalar("field")])

  function ApiInbound(port: string): Json {
    Object(map["listen" := Scalar("127.0.0.1"), "port" := Scalar(port), "protocol" := Scalar("dokodemo-door"),
               "settings" := Object(map["address" := Scalar("127.0.0.1")]), "tag" := Scalar("API_INBOUND")])
  }

  const API := Object(map[
    "services" := List([Scalar("HandlerService"), Scalar("StatsService"), Scalar("LoggerService")]), "tag" := Scalar("API")])

  function ItemsOf(fields: map<string, Json>, name: string): seq<Json> {
    if name in fields && fields[name].List? then fields[name].items else []
  }

  function FieldsOf(fields: map<string, Json>, name: string): map<string, Json> {
    if name in fields && fields[name].Object? then fields[name].fields else map[]
  }

  function Routed(routing: map<string, Json>): Json {
    Object(routing["rules" := List([API_RULE] + ItemsOf(routing, "rules"))])
  }

  /** The forced policy, merged over the configured one if there is one. */
  method ForcePolicy(raw: map<string, Json>) returns (policy: Json)
    ensures Enforced(FieldsOf(raw, "policy"), policy)
  {
    hide Enforced, Forced, Merge;
    MergeEnforces(FieldsOf(raw, "policy"));
    if "policy" in raw && raw["policy"].Object? {
      policy := MergeMap(raw["policy"], Object(Forced()));
      return;
    }
    MergeNothing(Forced());
    return Object(Forced());
  }

  lemma MergeNothing(override: map<string, Json>)
    ensures Merge(Object(map[]), Object(override)) == Object(override)
  {
  }

  /** The forced rule sends what comes in at the forced inbound to the API the node talks to. */
  lemma RuleReachesApi(port: string)
    ensures var rule, inbound := API_RULE.fields, ApiInbound(port).fields;
            && rule["inboundTag"] == List([inbound["tag"]]) && rule["outboundTag"] == API.fields["tag"]
            && inbound["tag"] == Scalar("API_INBOUND") && inbound["port"] == Scalar(port)
            && inbound["listen"] == inbound["settings"].fields["address"] == Scalar("127.0.0.1")
  {
  }

  class RawConfig {
    var raw: map<string, Json>

    constructor (raw: map<string, Json>)
      ensures this.raw == raw
    {
      this.raw := raw;
    }

    /** The API inbound and its rule come first, and all others follow as they were; nothing
        else changes but the statistics and their policy. */
    method ApplyApiConfig(port: string)
      modifies this
      ensures raw.Keys == old(raw).Keys + {"api", "stats", "policy", "inbounds", "routing"}
      ensures raw == old(raw)["api" := API]["stats" := Object(map[])]["policy" := raw["policy"]]
                             ["inbounds" := raw["inbounds"]]["routing" := raw["routing"]]
      ensures Enforced(FieldsOf(old(raw), "policy"), raw["policy"])
      ensures raw["inbounds"] == List([ApiInbound(port)] + ItemsOf(old(raw), "inbounds"))
      ensures var was := FieldsOf(old(raw), "routing");
              raw["routing"] == Object(was["rules" := List([API_RULE] + ItemsOf(was, "rules"))])
    {
      hide Enforced, ApiInbound;
      var policy := ForcePolicy(raw);
      var inbounds := List([ApiInbound(port)] + ItemsOf(raw, "inbounds"));
      var routing := Routed(FieldsOf(raw, "routing"));
      raw := raw["api" := API]["stats" := Object(map[])]["policy" := policy]["inbounds" := inbounds]["routing" := routing];
    }
  }
}
