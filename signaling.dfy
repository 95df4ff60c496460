// The phase 5 program's HTTP signaling layer: which handler a request
// reaches, how each handler reads its query or JSON body, and the status
// it answers with. The handlers drive the WebRTC server of WebRtcServer.

module Signaling {
  import opened Wire
  import opened Wrappers
  import opened CommandLine
  import opened WebRtcSession
  import opened WebRtcServer

  datatype HttpMethod = Get | Post | Options | OtherMethod

  datatype Handler =
    | CreateSessionHandler | JoinSessionHandler | OfferHandler | AnswerHandler | IceCandidateHandler
    | ControlHandler | StatsHandler
    | Preflight                 // the CORS answer: 200 with the Allow headers, for any path
    | NotFound                  // 404
    | NoHandler                 // the listener registers nothing for this method

  /** The path each POST handler is registered under. */
  function PostPath(h: Handler): string
  {
    match h
    case CreateSessionHandler => "/api/sessions"
    case JoinSessionHandler => "/api/join-session"
    case OfferHandler => "/api/webrtc/offer"
    case AnswerHandler => "/api/webrtc/answer"
    case IceCandidateHandler => "/api/webrtc/ice-candidate"
    case ControlHandler => "/api/control"
    case _ => ""
  }

  predicate IsPostHandler(h: Handler)
  {
    h in {CreateSessionHandler, JoinSessionHandler, OfferHandler, AnswerHandler, IceCandidateHandler, ControlHandler}
  }

  /** setup_http_server's dispatch on method and path. */
  function Route(m: HttpMethod, path: string): Handler
  {
    match m
    case Post =>
      if path == "/api/sessions" then CreateSessionHandler
      else if path == "/api/join-session" then JoinSessionHandler
      else if path == "/api/webrtc/offer" then OfferHandler
      else if path == "/api/webrtc/answer" then AnswerHandler
      else if path == "/api/webrtc/ice-candidate" then IceCandidateHandler
      else if path == "/api/control" then ControlHandler
      else NotFound
    case Get => if path == "/api/stats" then StatsHandler else NotFound
    case Options => Preflight
    case OtherMethod => NoHandler
  }

  /**
   * Each POST handler is reached through exactly its own path, the stats
   * handler only by GET /api/stats, and every other GET or POST gets 404.
   */
  lemma RouteTable(h: Handler, path: string)
    ensures IsPostHandler(h) ==> Route(Post, PostPath(h)) == h
    ensures Route(Post, path) == h && h != NotFound ==> IsPostHandler(h) && path == PostPath(h)
    ensures Route(Get, path) != NotFound <==> path == "/api/stats"
    ensures Route(Get, path) in {StatsHandler, NotFound} && Route(Post, path) != StatsHandler
  {
  }

  // ---- Request bodies ----

  /**
   * The parts of a JSON value the handlers tell apart. JInteger stands for
   * any JSON number: as_integer() accepts a fractional one too, truncating
   * it, and `n` is the value after that truncation.
   */
  datatype Json = JString(s: string) | JInteger(n: int) | JObject(fields: map<string, Json>) | JOther

  /** body[key].as_string(): a missing field or one that is not a string throws. */
  function StringField(body: Json, key: string): Option<string>
  {
    if body.JObject? && key in body.fields && body.fields[key].JString? then Some(body.fields[key].s) else None
  }

  function IntegerField(body: Json, key: string): Option<int>
  {
    if body.JObject? && key in body.fields && body.fields[key].JInteger? then Some(body.fields[key].n) else None
  }

  /** The controlType strings and the control kinds they name. */
  function ControlTypeFor(name: string): (k: Option<ControlType>)
    ensures k == Some(SliceOrientation) <==> name == "slice-orientation"
    ensures k == Some(AnimationSpeed) <==> name == "animation-speed"
    ensures k == Some(PauseResume) <==> name == "pause-resume"
    ensures k == Some(RestartAnimation) <==> name == "restart-animation"
    ensures k == Some(QualityLevel) <==> name == "quality-level"
    ensures k != Some(AnimationDuration) && k != Some(FrameRate)
  {
    if name == "slice-orientation" then Some(SliceOrientation)
    else if name == "animation-speed" then Some(AnimationSpeed)
    else if name == "pause-resume" then Some(PauseResume)
    else if name == "restart-animation" then Some(RestartAnimation)
    else if name == "quality-level" then Some(QualityLevel)
    else None
  }

  /** The kinds a browser can name. */
  predicate Nameable(k: ControlType)
  {
    k !in {AnimationDuration, FrameRate}
  }

  function ControlTypeName(k: ControlType): string
    requires Nameable(k)
  {
    match k
    case SliceOrientation => "slice-orientation"
    case AnimationSpeed => "animation-speed"
    case PauseResume => "pause-resume"
    case RestartAnimation => "restart-animation"
    case QualityLevel => "quality-level"
  }

  /** The five names and five kinds are in one-to-one correspondence; every other string names nothing. */
  lemma ControlTypeNames(k: ControlType, name: string)
    ensures Nameable(k) ==> ControlTypeFor(ControlTypeName(k)) == Some(k)
    ensures ControlTypeFor(name) == Some(k) ==> Nameable(k) && name == ControlTypeName(k)
  {
  }

  predicate AllStrings(fields: map<string, Json>)
  {
    forall k :: k in fields ==> fields[k].JString?
  }

  /**
   * The controlData fields, copied as they are; absent controlData gives
   * no parameters, and controlData that is not an object of strings throws.
   */
  function ControlParameters(body: Json): (p: Option<map<string, string>>)
    ensures p.Some? && body.JObject? && "controlData" in body.fields ==>
      var d := body.fields["controlData"];
      d.JObject? && p.value.Keys == d.fields.Keys && forall k :: k in d.fields ==> d.fields[k] == JString(p.value[k])
  {
    if !(body.JObject? && "controlData" in body.fields) then Some(map[])
    else
      var d := body.fields["controlData"];
      if d.JObject? && AllStrings(d.fields) then Some(map k | k in d.fields :: d.fields[k].s) else None
  }

  /** The ControlMessage handle_control_message builds from a body, or None where it throws and answers 400. */
  function ControlMessageFrom(body: Json): (m: Option<ControlMessage>)
    ensures m.Some? ==> Nameable(m.value.kind)
  {
    var sid := StringField(body, "sessionId");
    var kind := StringField(body, "controlType");
    if sid.None? || kind.None? then None
    else
      var k := ControlTypeFor(kind.value);
      var p := ControlParameters(body);
      if k.None? || p.None? then None else Some(ControlMessage(k.value, sid.value, p.value))
  }

  /** The body a browser sends for a control message. */
  function ControlBody(m: ControlMessage): Json
    requires Nameable(m.kind)
  {
    JObject(map["sessionId" := JString(m.sessionId),
                "controlType" := JString(ControlTypeName(m.kind)),
                "controlData" := JObject(map k | k in m.parameters :: JString(m.parameters[k]))])
  }

  /** Reading a browser's control body gives back its message, parameters included. */
  lemma ControlBodyRoundTrip(m: ControlMessage)
    requires Nameable(m.kind)
    ensures ControlMessageFrom(ControlBody(m)) == Some(m)
  {
    var b := ControlBody(m);
    assert StringField(b, "sessionId") == Some(m.sessionId);
    assert StringField(b, "controlType") == Some(ControlTypeName(m.kind));
    ControlTypeNames(m.kind, ControlTypeName(m.kind));
    var d := b.fields["controlData"];
    assert AllStrings(d.fields);
    var p := ControlParameters(b).value;
    assert p.Keys == m.parameters.Keys;
    assert forall k :: k in p ==> p[k] == m.parameters[k];
    assert p == m.parameters;
  }

  /** An unknown controlType, or a missing session id, is rejected whatever else the body holds. */
  lemma ControlRejections(body: Json)
    ensures StringField(body, "controlType").Some? && ControlTypeFor(StringField(body, "controlType").value).None? ==>
      ControlMessageFrom(body).None?
    ensures StringField(body, "sessionId").None? ==> ControlMessageFrom(body).None?
    ensures body.JObject? && "controlData" in body.fields && !body.fields["controlData"].JObject? ==>
      ControlMessageFrom(body).None?
  {
  }

  /** The fields the offer, answer and ICE handlers read, and whether each must be a string (else an integer). */
  function RequiredFields(h: Handler): seq<(string, bool)>
  {
    match h
    case OfferHandler => [("sessionId", true), ("clientId", true), ("sdp", true)]
    case AnswerHandler => [("sessionId", true), ("clientId", true), ("sdp", true)]
    case IceCandidateHandler =>
      [("sessionId", true), ("clientId", true), ("candidate", true), ("sdpMid", true), ("sdpMLineIndex", false)]
    case _ => []
  }

  predicate HasField(body: Json, f: (string, bool))
  {
    if f.1 then StringField(body, f.0).Some? else IntegerField(body, f.0).Some?
  }

  /**
   * The offer, answer and ICE handlers: 200 once every field they read is
   * present with its type, otherwise the read throws and they answer 400.
   */
  function SignalStatus(h: Handler, body: Json): int
  {
    if forall i :: 0 <= i < |RequiredFields(h)| ==> HasField(body, RequiredFields(h)[i]) then 200 else 400
  }

  /** A complete offer is accepted, and dropping any field it needs makes it a bad request. */
  lemma OfferFields(sid: string, cid: string, sdp: string, drop: string)
    ensures SignalStatus(OfferHandler, JObject(map["sessionId" := JString(sid), "clientId" := JString(cid), "sdp" := JString(sdp)])) == 200
    ensures drop in {"sessionId", "clientId", "sdp"} ==>
      SignalStatus(OfferHandler, JObject(map["sessionId" := JString(sid), "clientId" := JString(cid), "sdp" := JString(sdp)] - {drop})) == 400
  {
    var full := map["sessionId" := JString(sid), "clientId" := JString(cid), "sdp" := JString(sdp)];
    if drop in {"sessionId", "clientId", "sdp"} {
      var i := if drop == "sessionId" then 0 else if drop == "clientId" then 1 else 2;
      assert RequiredFields(OfferHandler)[i].0 == drop;
      assert !HasField(JObject(full - {drop}), RequiredFields(OfferHandler)[i]);
    }
  }

  /** An ICE candidate needs its line index as a number: the same value as a string is refused. */
  lemma IceIndexMustBeNumber(fields: map<string, Json>, index: int)
    requires forall k :: k in {"sessionId", "clientId", "candidate", "sdpMid"} ==> k in fields && fields[k].JString?
    ensures SignalStatus(IceCandidateHandler, JObject(fields["sdpMLineIndex" := JInteger(index)])) == 200
    ensures SignalStatus(IceCandidateHandler, JObject(fields["sdpMLineIndex" := JString(IntText(index))])) == 400
  {
    var bad := JObject(fields["sdpMLineIndex" := JString(IntText(index))]);
    assert !HasField(bad, RequiredFields(IceCandidateHandler)[4]);
  }

  // ---- Session creation ----

  /**
   * The session configuration handle_create_session builds: the defaults,
   * with width and height (std::stoi), fps (std::stof, here `stof`),
   * quality and orientation replaced when the query has them. None when a
   * conversion throws.
   */
  function SessionConfigFrom(query: map<string, string>, stof: string -> Option<Float32>): (r: Option<SessionConfig>)
    ensures r.None? <==>
      ("width" in query && Stoi(query["width"]).None?) || ("height" in query && Stoi(query["height"]).None?)
      || ("fps" in query && stof(query["fps"]).None?)
    ensures r.Some? ==>
      var sc := r.value;
      && sc.width == (if "width" in query then Stoi(query["width"]).value else DefaultSessionConfig.width)
      && sc.height == (if "height" in query then Stoi(query["height"]).value else DefaultSessionConfig.height)
      && sc.fps == (if "fps" in query then stof(query["fps"]).value else DefaultSessionConfig.fps)
      && sc.quality == (if "quality" in query then query["quality"] else DefaultSessionConfig.quality)
      && sc.orientation == (if "orientation" in query then query["orientation"] else DefaultSessionConfig.orientation)
      && sc.(width := DefaultSessionConfig.width, height := DefaultSessionConfig.height, fps := DefaultSessionConfig.fps,
             quality := DefaultSessionConfig.quality, orientation := DefaultSessionConfig.orientation) == DefaultSessionConfig
  {
    var d := DefaultSessionConfig;
    var w := if "width" in query then Stoi(query["width"]) else Some(d.width);
    var h := if "height" in query then Stoi(query["height"]) else Some(d.height);
    var f := if "fps" in query then stof(query["fps"]) else Some(d.fps);
    if w.None? || h.None? || f.None? then None
    else
      Some(d.(width := w.value, height := h.value, fps := f.value,
              quality := if "quality" in query then query["quality"] else d.quality,
              orientation := if "orientation" in query then query["orientation"] else d.orientation))
  }

  /**
   * A query that gives a size in decimal yields a session of that size, the
   * rest at its defaults, when both numbers fit in an int; otherwise stoi
   * throws and no session configuration comes out.
   */
  lemma SizeQuery(w: int, h: int, stof: string -> Option<Float32>)
    ensures InIntRange(w) && InIntRange(h) ==>
      SessionConfigFrom(map["width" := IntText(w), "height" := IntText(h)], stof)
         == Some(DefaultSessionConfig.(width := w, height := h))
    ensures !InIntRange(w) || !InIntRange(h) ==>
      SessionConfigFrom(map["width" := IntText(w), "height" := IntText(h)], stof).None?
  {
    StoiOfText(w);
    StoiOfText(h);
    var q := map["width" := IntText(w), "height" := IntText(h)];
    assert "width" in q && q["width"] == IntText(w);
    assert "height" in q && q["height"] == IntText(h);
    if InIntRange(w) && InIntRange(h) {
      SizeOverrides(IntText(w), IntText(h), w, h, stof);
    }
  }

  /** Width and height given as numbers override the defaults and nothing else. */
  lemma SizeOverrides(width: string, height: string, w: int, h: int, stof: string -> Option<Float32>)
    requires Stoi(width) == Some(w) && Stoi(height) == Some(h)
    ensures SessionConfigFrom(map["width" := width, "height" := height], stof) == Some(DefaultSessionConfig.(width := w, height := h))
  {
    var q := map["width" := width, "height" := height];
    assert q["width"] == width && q["height"] == height;
    assert "fps" !in q && "quality" !in q && "orientation" !in q;
  }

  /** A number printed by std::to_string reads back with std::stoi when an int can hold it, and is refused otherwise. */
  lemma StoiOfText(n: int)
    ensures Stoi(IntText(n)) == if InIntRange(n) then Some(n) else None
  {
    AtoiOfText(n, []);
    assert IntText(n) + [] == IntText(n);
  }

  /** What a handler does with its request. */
  datatype Reply =
    | Status(code: int)
    | Escaped       // an exception leaves the handler; the HTTP library answers for it

  /**
   * handle_create_session: a query whose numbers do not convert escapes
   * before the server is called; otherwise the server's create_session
   * runs (with `digits` the random hex digits and `setup` how far media
   * setup gets, `initialFrames` and `initialBytes` the new session's
   * uninitialised counters) and an empty id is answered 500, a session id 200.
   */
  method HandleCreateSession(server: Server, query: map<string, string>, stof: string -> Option<Float32>,
                             digits: seq<nat>, setup: MediaSetup, initialFrames: nat, initialBytes: nat)
    returns (reply: Reply)
    requires server.Valid()
    requires |digits| == 8 && forall i :: 0 <= i < |digits| ==> digits[i] < 16
    modifies server
    ensures server.Valid()
    ensures SessionConfigFrom(query, stof).None? ==> reply == Escaped && server.sessions == old(server.sessions)
    ensures SessionConfigFrom(query, stof).Some? ==> reply.Status? && reply.code in {200, 500}
    ensures reply == Status(200) ==> ChosenId(SessionConfigFrom(query, stof).value, digits) in server.sessions
    ensures reply == Status(500) ==> server.sessions == old(server.sessions)
    ensures SessionConfigFrom(query, stof).Some? && ChosenId(SessionConfigFrom(query, stof).value, digits) in old(server.sessions) ==>
      reply == Status(200) && server.sessions == old(server.sessions)
  {
    var sc := SessionConfigFrom(query, stof);
    if sc.None? {
      return Escaped;
    }
    var id := server.CreateSession(sc.value, digits, setup, initialFrames, initialBytes);
    if id != "" {
      reply := Status(200);
    } else {
      reply := Status(500);
    }
  }

  // ---- Joining ----

  /**
   * handle_join_session: 400 and no server call unless both ids are in
   * the query; otherwise join_session's answer, true as 200 and false as
   * 404. `created` and `attached` are what the WebRTC library does for the
   * new client's peer connection.
   */
  method HandleJoinSession(server: Server, query: map<string, string>, created: Option<Peer>, attached: bool)
    returns (status: int)
    requires server.Valid()
    modifies server.sessions.Values
    ensures server.Valid()
    ensures status in {200, 400, 404}
    ensures status == 400 <==> "sessionId" !in query || "clientId" !in query
    ensures status != 200 ==> server.Registry() == old(server.Registry())
    ensures status != 400 && query["sessionId"] !in old(server.Registry()) ==> status == 404
    ensures status == 200 ==>
      && query["sessionId"] in server.Registry()
      && query["clientId"] in server.Registry()[query["sessionId"]].clients
    ensures status != 400 && query["sessionId"] in old(server.Registry())
            && query["clientId"] in old(server.Registry())[query["sessionId"]].clients ==>
      status == 200 && server.Registry() == old(server.Registry())
  {
    if "sessionId" !in query || "clientId" !in query {
      return 400;
    }
    var ok := server.JoinSession(query["sessionId"], query["clientId"], created, attached);
    status := if ok then 200 else 404;
  }

  // ---- Control messages ----

  /**
   * handle_control_message: a body that does not make a ControlMessage is
   * answered 400 and the server is not called. Otherwise the server
   * applies the message; a speed that does not convert throws inside the
   * server, after nothing has changed, and that is answered 400 too;
   * everything else is answered 200. `speed` is std::stof on the speed
   * parameter.
   */
  method HandleControl(server: Server, body: Json, speed: Option<Float32>, nowUs: int) returns (status: int)
    requires server.Valid()
    modifies server`animationStartUs, server.sessions.Values
    ensures server.Valid()
    ensures ControlMessageFrom(body).None? ==>
      status == 400 && server.Registry() == old(server.Registry()) && server.animationStartUs == old(server.animationStartUs)
    ensures ControlMessageFrom(body).Some? ==>
      var m := ControlMessageFrom(body).value;
      var known := m.sessionId in old(server.Registry());
      var r := if known then ApplyControl(old(server.Registry())[m.sessionId].config, m.kind, m.parameters, speed) else Unchanged;
      && status == (if r.SpeedNotANumber? then 400 else 200)
      && server.Registry() == (if r.Changed? then old(server.Registry())[m.sessionId := old(server.Registry())[m.sessionId].(config := r.config)] else old(server.Registry()))
      && server.animationStartUs == (if known && m.kind == RestartAnimation then nowUs else old(server.animationStartUs))
  {
    var m := ControlMessageFrom(body);
    if m.None? {
      return 400;
    }
    var msg := m.value;
    var threw := false;
    if msg.sessionId in server.sessions {
      var r := ApplyControl(server.sessions[msg.sessionId].config, msg.kind, msg.parameters, speed);
      threw := r.SpeedNotANumber?;
    }
    server.HandleControlMessage(msg, speed, nowUs);
    status := if threw then 400 else 200;
  }
}
