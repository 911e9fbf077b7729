/** Splitting a customize-mode system message into the config that crosses the wire and the callbacks that
    stay, and putting the two together again when the server asks for the transforms. */
module SystemMessageTransform {
  import opened Wrappers

  /** A section transform: the new content, or an error. */
  type Transform = string -> Result<string, string>

  datatype Override = Override(action: string, content: string, transform: Option<Transform>)

  datatype Config = Config(mode: string, content: string, sections: map<string, Override>)

  /** A section as it is serialised: the callback is not part of it. */
  datatype WireOverride = WireOverride(action: string, content: string)

  function OnWire(o: Override): WireOverride {
    WireOverride(o.action, o.content)
  }

  const TRANSFORM := "transform"
  const CUSTOMIZE := "customize"

  predicate Splits(config: Config) {
    config.mode == CUSTOMIZE && exists id :: id in config.sections && config.sections[id].transform.Some?
  }

  /** The callbacks of a split config; the config itself is unchanged when there are none. */
  function Callbacks(config: Config): map<string, Transform> {
    map id | id in config.sections && config.sections[id].transform.Some? :: config.sections[id].transform.value
  }

  function WireSections(sections: map<string, Override>): map<string, Override> {
    map id | id in sections ::
      if sections[id].transform.Some? then Override(TRANSFORM, "", None) else sections[id]
  }

  /** `extractTransformCallbacks`: one pass over the sections in whatever order the map yields them. */
  method ExtractTransformCallbacks(config: Option<Config>)
    returns (wire: Option<Config>, callbacks: Option<map<string, Transform>>)
    ensures config.None? || !Splits(config.value) ==> wire == config && callbacks == None
    ensures config.Some? && Splits(config.value) ==>
      && wire == Some(config.value.(sections := WireSections(config.value.sections)))
      && callbacks == Some(Callbacks(config.value))
  {
    if config.None? || config.value.mode != CUSTOMIZE || |config.value.sections| == 0 {
      assert config.Some? && |config.value.sections| == 0 ==> config.value.sections == map[];
      return config, None;
    }
    var sections := config.value.sections;
    var found: map<string, Transform> := map[];
    var wireSections: map<string, Override> := map[];
    var left := sections.Keys;
    while left != {}
      invariant left <= sections.Keys
      invariant wireSections.Keys == sections.Keys - left
      invariant forall id :: id in wireSections ==> wireSections[id] == WireSections(sections)[id]
      invariant forall id :: id in found <==> id in sections && id !in left && sections[id].transform.Some?
      invariant forall id :: id in found ==> found[id] == sections[id].transform.value
      decreases left
    {
      var id :| id in left;
      left := left - {id};
      var override := sections[id];
      if override.transform.Some? {
        found := found[id := override.transform.value];
        wireSections := wireSections[id := Override(TRANSFORM, "", None)];
      } else {
        wireSections := wireSections[id := override];
      }
    }
    assert found == Callbacks(config.value);
    if |found| == 0 {
      assert forall id :: id !in found;
      return config, None;
    }
    assert found != map[];
    assert wireSections == WireSections(sections);
    return Some(config.value.(sections := wireSections)), Some(found);
  }

  /** One section through its callback: a missing or failing callback leaves it as it is. */
  function Transformed(callbacks: Option<map<string, Transform>>, id: string, content: string): string {
    if callbacks.Some? && id in callbacks.value then
      match callbacks.value[id](content)
      case Ok(s) => s
      case Err(_) => content
    else content
  }

  function Handled(callbacks: Option<map<string, Transform>>, request: map<string, string>): map<string, string> {
    map id | id in request :: Transformed(callbacks, id, request[id])
  }

  class Session {
    var transformCallbacks: Option<map<string, Transform>>

    constructor ()
      ensures transformCallbacks == None
    {
      transformCallbacks := None;
    }

    /** What create and resume do with the callbacks. */
    method Register(callbacks: Option<map<string, Transform>>)
      modifies this
      ensures transformCallbacks == if callbacks.Some? then callbacks else old(transformCallbacks)
    {
      if callbacks.Some? {
        transformCallbacks := callbacks;
      }
    }

    /** `handleSystemMessageTransform`, in whatever order the request map is walked. */
    method HandleSystemMessageTransform(request: map<string, string>) returns (response: map<string, string>)
      ensures response.Keys == request.Keys
      ensures response == Handled(transformCallbacks, request)
    {
      var callbacks := transformCallbacks;
      response := map[];
      var left := request.Keys;
      while left != {}
        invariant left <= request.Keys
        invariant response.Keys == request.Keys - left
        invariant forall id :: id in response ==> response[id] == Transformed(callbacks, id, request[id])
        decreases left
      {
        var id :| id in left;
        left := left - {id};
        var content := request[id];
        if callbacks.Some? && id in callbacks.value {
          var r := callbacks.value[id](content);
          if r.Err? {
            response := response[id := content];
          } else {
            response := response[id := r.value];
          }
        } else {
          response := response[id := content];
        }
      }
    }
  }

  // ---------- meaning ----------

  /** How a server applies any action but "transform" to the base content of a section. */
  type Server = (string, WireOverride, string) -> string

  /** The prompt a config means when its callbacks can be called on the spot. A section with a callback is
      transformed whatever its action says; one that says "transform" without a callback is left alone. */
  function Inline(server: Server, config: Config, base: map<string, string>): map<string, string> {
    map id | id in base ::
      if id !in config.sections then base[id]
      else
        var o := config.sections[id];
        if o.transform.Some? then
          match o.transform.value(base[id]) case Ok(s) => s case Err(_) => base[id]
        else if o.action == TRANSFORM then base[id]
        else server(id, OnWire(o), base[id])
  }

  /** The sections the server sends back for transformation. */
  function TransformRequest(wire: Config, base: map<string, string>): map<string, string> {
    map id | id in base && id in wire.sections && OnWire(wire.sections[id]).action == TRANSFORM :: base[id]
  }

  /** The prompt the server builds from a wire config and the transform response. */
  function Assembled(server: Server, wire: Config, base: map<string, string>, response: map<string, string>)
    : map<string, string>
  {
    map id | id in base ::
      if id in response then response[id]
      else if id in wire.sections then server(id, OnWire(wire.sections[id]), base[id])
      else base[id]
  }

  /** Sending a config: split it, register the callbacks, let the server ask for the transforms and assemble
      the prompt. For every config in customize mode, every base prompt, every callback behaviour and every
      server this gives the prompt the config means, section for section, and the wire config carries every
      section id and no callback. */
  method Deliver(server: Server, config: Config, base: map<string, string>)
    returns (prompt: map<string, string>, wire: Config)
    requires config.mode == "customize"
    ensures prompt == Inline(server, config, base)
    ensures wire.mode == config.mode && wire.content == config.content && wire.sections.Keys == config.sections.Keys
    ensures forall id :: id in wire.sections ==> wire.sections[id].transform.None?
    ensures forall id :: id in config.sections && config.sections[id].transform.Some? ==>
      wire.sections[id] == Override("transform", "", None)
    ensures forall id :: id in config.sections && config.sections[id].transform.None? ==>
      wire.sections[id] == config.sections[id]
  {
    var w, callbacks := ExtractTransformCallbacks(Some(config));
    wire := w.value;
    var session := new Session();
    session.Register(callbacks);
    var request := TransformRequest(wire, base);
    var response := session.HandleSystemMessageTransform(request);
    prompt := Assembled(server, wire, base, response);
    SplitPreservesMeaning(server, config, base);
    assert !Splits(config) ==> wire == config;
  }

  /** The wire config and registered callbacks of a config. */
  function Wire(config: Config): Config {
    if Splits(config) then config.(sections := WireSections(config.sections)) else config
  }

  function Registered(config: Config): Option<map<string, Transform>> {
    if Splits(config) then Some(Callbacks(config)) else None
  }

  lemma SplitPreservesMeaning(server: Server, config: Config, base: map<string, string>)
    requires config.mode == CUSTOMIZE
    ensures var request := TransformRequest(Wire(config), base);
      Assembled(server, Wire(config), base, Handled(Registered(config), request)) == Inline(server, config, base)
  {
    var wire := Wire(config);
    var request := TransformRequest(wire, base);
    var prompt := Assembled(server, wire, base, Handled(Registered(config), request));
    forall id | id in base ensures prompt[id] == Inline(server, config, base)[id] {
      if id in config.sections && config.sections[id].transform.Some? {
        assert id in request && id in Callbacks(config);
      }
    }
  }
}
