/**
 * The device's identity and the names derived from it: the MQTT client id
 * built in `get_client` and the two topics the script uses. The script builds
 * all three with Python's `str.format`, so that operation is modelled first
 * (`Format`) and each name is then proved equal to the plain concatenation it
 * produces.
 */
module Naming {

  datatype Option<T> = None | Some(value: T)

  // The configuration constants of the script (mqtt-client-gcp.py:27-30).
  const PROJECT_ID: string := "raspberry-197017"
  const REGISTRY_ID: string := "raspi"
  const DEVICE_ID: string := "raspberrypi"
  const CLOUD_REGION: string := "us-central1"

  // The three templates of the script, cut at their `{}` fields (see `Template`):
  // 'projects/{}/locations/{}/registries/{}/devices/{}' (mqtt-client-gcp.py:94),
  // '/devices/{}/config' (line 109) and '/devices/{}/events' (line 130).
  const CLIENT_ID_PIECES: seq<string> := ["projects/", "/locations/", "/registries/", "/devices/", ""]
  const CONFIG_TOPIC_PIECES: seq<string> := ["/devices/", "/config"]
  const EVENTS_TOPIC_PIECES: seq<string> := ["/devices/", "/events"]

  /** True when the template begins with an automatically numbered field `{}`. */
  predicate StartsWithField(template: string) {
    |template| >= 2 && template[0] == '{' && template[1] == '}'
  }

  /**
   * Every brace of the template belongs to a `{}` field. Python gives other
   * braces their own meaning (`{{` and `}}` escape a brace, `{0}` and `{name}`
   * pick an argument, a stray brace raises ValueError); none is modelled.
   */
  predicate BareFields(template: string)
    decreases |template|
  {
    if |template| == 0 then true
    else if StartsWithField(template) then BareFields(template[2..])
    else template[0] != '{' && template[0] != '}' && BareFields(template[1..])
  }

  /** The number of `{}` fields in a template. */
  function FieldCount(template: string): nat
    decreases |template|
  {
    if |template| == 0 then 0
    else if StartsWithField(template) then 1 + FieldCount(template[2..])
    else FieldCount(template[1..])
  }

  function Prefixed(prefix: string, r: Option<string>): Option<string> {
    match r
    case None => None
    case Some(s) => Some(prefix + s)
  }

  /**
   * `template.format(*args)` for templates whose only braces are `{}`
   * fields: each field takes the next argument; too few arguments is Python's
   * IndexError (None); surplus arguments are ignored.
   */
  function Format(template: string, args: seq<string>): (r: Option<string>)
    requires BareFields(template)
    ensures r.Some? <==> FieldCount(template) <= |args|
    decreases |template|
  {
    if |template| == 0 then Some("")
    else if StartsWithField(template) then
      if |args| == 0 then None else Prefixed(args[0], Format(template[2..], args[1..]))
    else Prefixed([template[0]], Format(template[1..], args))
  }

  /** Text without braces is copied through unchanged. */
  lemma {:induction false} FormatLiteral(lit: string, rest: string, args: seq<string>)
    requires '{' !in lit && '}' !in lit && BareFields(rest)
    ensures BareFields(lit + rest) && Format(lit + rest, args) == Prefixed(lit, Format(rest, args))
    decreases |lit|
  {
    if lit == [] {
      assert lit + rest == rest;
      match Format(rest, args)
      case None =>
      case Some(s) => assert lit + s == s;
    } else {
      var tail := lit[1..];
      assert (lit + rest)[0] == lit[0] && (lit + rest)[1..] == tail + rest;
      assert lit[0] in lit;
      assert forall c :: c in tail ==> c in lit;
      assert !StartsWithField(lit + rest);
      FormatLiteral(tail, rest, args);
      assert [lit[0]] + tail == lit;
      match Format(rest, args)
      case None =>
      case Some(s) =>
        assert [lit[0]] + (tail + s) == lit + s;
    }
  }

  /** A leading `{}` is replaced by the first argument. */
  lemma FormatField(arg: string, rest: string, args: seq<string>)
    requires BareFields(rest)
    ensures BareFields("{}" + rest) && Format("{}" + rest, [arg] + args) == Prefixed(arg, Format(rest, args))
  {
  }

  /**
   * A template written as literal pieces separated by `{}` fields:
   * `pieces[0] + "{}" + pieces[1] + ... + "{}" + pieces[n]`.
   */
  function Template(pieces: seq<string>): string
    requires |pieces| >= 1
    decreases |pieces|
  {
    if |pieces| == 1 then pieces[0] else pieces[0] + "{}" + Template(pieces[1..])
  }

  /** The pieces with the arguments put between them, one per field. */
  function Interleave(pieces: seq<string>, args: seq<string>): string
    requires |pieces| == |args| + 1
    decreases |args|
  {
    if |args| == 0 then pieces[0] else pieces[0] + args[0] + Interleave(pieces[1..], args[1..])
  }

  predicate Literal(pieces: seq<string>) {
    forall i :: 0 <= i < |pieces| ==> '{' !in pieces[i] && '}' !in pieces[i]
  }

  /** Formatting a template with exactly one argument per field interleaves them. */
  lemma {:induction false} FormatTemplate(pieces: seq<string>, args: seq<string>)
    requires |pieces| == |args| + 1 && Literal(pieces)
    ensures BareFields(Template(pieces)) && Format(Template(pieces), args) == Some(Interleave(pieces, args))
    decreases |args|
  {
    if |args| == 0 {
      assert BareFields("");
      FormatLiteral(pieces[0], "", args);
      assert pieces[0] + "" == pieces[0];
      assert Format("", args) == Some("");
    } else {
      var rest := Template(pieces[1..]);
      assert Literal(pieces[1..]) by {
        forall i | 0 <= i < |pieces| - 1 ensures '{' !in pieces[1..][i] && '}' !in pieces[1..][i] {
          assert pieces[1..][i] == pieces[i + 1];
        }
      }
      FormatTemplate(pieces[1..], args[1..]);
      FormatField(args[0], rest, args[1..]);
      assert [args[0]] + args[1..] == args;
      FormatLiteral(pieces[0], "{}" + rest, args);
      assert pieces[0] + "{}" + rest == pieces[0] + ("{}" + rest);
      assert args[0] + Interleave(pieces[1..], args[1..]) + "" == args[0] + Interleave(pieces[1..], args[1..]);
      assert pieces[0] + (args[0] + Interleave(pieces[1..], args[1..]))
          == pieces[0] + args[0] + Interleave(pieces[1..], args[1..]);
    }
  }

  lemma ClientIdText(args: seq<string>)
    requires |args| == 4
    ensures Interleave(CLIENT_ID_PIECES, args)
         == "projects/" + args[0] + "/locations/" + args[1] + "/registries/" + args[2] + "/devices/" + args[3]
  {
    var p := CLIENT_ID_PIECES;
    assert p[1..] == ["/locations/", "/registries/", "/devices/", ""];
    assert p[1..][1..] == ["/registries/", "/devices/", ""];
    assert p[1..][1..][1..] == ["/devices/", ""];
    assert p[1..][1..][1..][1..] == [""];
    var i4 := Interleave(p[1..][1..][1..][1..], args[1..][1..][1..][1..]);
    assert i4 == "";
    var i3 := Interleave(p[1..][1..][1..], args[1..][1..][1..]);
    assert i3 == "/devices/" + args[3] + i4;
    var i2 := Interleave(p[1..][1..], args[1..][1..]);
    assert i2 == "/registries/" + args[2] + i3;
    var i1 := Interleave(p[1..], args[1..]);
    assert i1 == "/locations/" + args[1] + i2;
    assert Interleave(p, args) == "projects/" + args[0] + i1;
  }

  /**
   * The MQTT client id of `get_client`. The registry part is the literal
   * "raspi", not the `registryId` argument, exactly as the script writes it.
   */
  function ClientId(projectId: string, cloudRegion: string, registryId: string, deviceId: string): (id: string)
    ensures id == "projects/" + projectId + "/locations/" + cloudRegion + "/registries/raspi/devices/" + deviceId
  {
    var args := [projectId, cloudRegion, "raspi", deviceId];
    FormatTemplate(CLIENT_ID_PIECES, args);
    ClientIdText(args);
    Format(Template(CLIENT_ID_PIECES), args).value
  }

  /** The topic `get_client` subscribes to for configuration pushes. */
  function ConfigTopic(deviceId: string): (topic: string)
    ensures topic == "/devices/" + deviceId + "/config"
  {
    FormatTemplate(CONFIG_TOPIC_PIECES, [deviceId]);
    Format(Template(CONFIG_TOPIC_PIECES), [deviceId]).value
  }

  /** The topic `main` publishes telemetry to. */
  function EventsTopic(deviceId: string): (topic: string)
    ensures topic == "/devices/" + deviceId + "/events"
  {
    FormatTemplate(EVENTS_TOPIC_PIECES, [deviceId]);
    Format(Template(EVENTS_TOPIC_PIECES), [deviceId]).value
  }

  /** The registry argument of `get_client` has no influence on the client id. */
  lemma ClientIdIgnoresRegistry(projectId: string, cloudRegion: string, registry1: string, registry2: string, deviceId: string)
    ensures ClientId(projectId, cloudRegion, registry1, deviceId) == ClientId(projectId, cloudRegion, registry2, deviceId)
  {
  }

  /**
   * `main` passes the project id where `get_client` expects the registry id;
   * because that argument is ignored, the session still reports the
   * configured registry.
   */
  lemma MainClientId()
    ensures ClientId(PROJECT_ID, CLOUD_REGION, PROJECT_ID, DEVICE_ID)
         == "projects/" + PROJECT_ID + "/locations/" + CLOUD_REGION + "/registries/" + REGISTRY_ID + "/devices/" + DEVICE_ID
  {
  }

  /** Different devices publish to different topics. */
  lemma EventsTopicInjective(deviceId1: string, deviceId2: string)
    requires EventsTopic(deviceId1) == EventsTopic(deviceId2)
    ensures deviceId1 == deviceId2
  {
    var t := EventsTopic(deviceId1);
    assert deviceId1 == t[9..|t| - 7];
    assert deviceId2 == t[9..|t| - 7];
  }

  /** No device ever publishes telemetry onto a configuration topic. */
  lemma TopicsDiffer(deviceId1: string, deviceId2: string)
    ensures EventsTopic(deviceId1) != ConfigTopic(deviceId2)
  {
    var e, c := EventsTopic(deviceId1), ConfigTopic(deviceId2);
    if |e| == |c| {
      assert e[|e| - 6] == 'e';
      assert c[|c| - 6] == 'c';
    }
  }
}
