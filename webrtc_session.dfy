/**
 * One WebRTC session of the Phase 5 server (server/src/webrtc_session.cpp,
 * server/include/blustream/server/webrtc_server.h): its configuration, its
 * ordered list of clients with one peer connection each, the media stream
 * it shares with them and the frames it has passed on.
 *
 * The WebRTC library is an oracle: how far media-stream creation gets, the
 * peer connection a client receives (or none), and whether the stream
 * attaches to it are parameters. Floating-point fields are carried as their
 * IEEE 754 single-precision bit patterns; no arithmetic is done on them.
 */
module WebRtcSession {
  import opened Wire
  import opened Wrappers

  const OneF: Float32 := Float32(0x3F80_0000)
  const ThirtyF: Float32 := Float32(0x41F0_0000)

  datatype SessionConfig = SessionConfig(
    sessionId: string,
    width: int,
    height: int,
    fps: Float32,
    bitrateKbps: int,
    quality: string,
    orientation: string,
    animate: bool,
    animationSpeed: Float32,
    animationDuration: Float32,
    paused: bool,
    currentSlice: int)   // negative: the slice follows the animation

  /** A default-constructed SessionConfig: 1920x1080 at 30 fps, 5000 kbps, "auto" quality, animated XZ slices. */
  const DefaultSessionConfig: SessionConfig :=
    SessionConfig("", 1920, 1080, ThirtyF, 5000, "auto", "XZ", true, OneF, ThirtyF, false, -1)

  /** The seven control kinds a browser can send, in declaration order. */
  datatype ControlType =
    | SliceOrientation | AnimationSpeed | AnimationDuration | PauseResume
    | RestartAnimation | QualityLevel | FrameRate

  datatype ControlMessage = ControlMessage(kind: ControlType, sessionId: string, parameters: map<string, string>)

  /** A peer connection handed out by the WebRTC library. */
  datatype Peer = Peer(handle: nat)

  /** How far create_media_stream gets: the first step whose result is null, or none. */
  datatype MediaSetup = NoVideoSource | NoVideoTrack | NoMediaStream | TrackNotAdded | MediaReady

  predicate NoDuplicates<T(==)>(s: seq<T>)
  {
    forall i, j :: 0 <= i < j < |s| ==> s[i] != s[j]
  }

  /** The list with the first occurrence of x removed, as vector::erase(find(...)) does. */
  function EraseFirst<T(==)>(s: seq<T>, x: T): (r: seq<T>)
    ensures |r| == if x in s then |s| - 1 else |s|
  {
    if s == [] then []
    else if s[0] == x then s[1..]
    else [s[0]] + EraseFirst(s[1..], x)
  }

  /** Erasing an absent value changes nothing. */
  lemma {:induction false} EraseFirstAbsent<T>(s: seq<T>, x: T)
    requires x !in s
    ensures EraseFirst(s, x) == s
  {
    if s != [] {
      EraseFirstAbsent(s[1..], x);
    }
  }

  /**
   * In a list without duplicates, erasing x removes x altogether, keeps
   * every other member and keeps the list free of duplicates.
   */
  lemma {:induction false} EraseFirstDistinct<T>(s: seq<T>, x: T)
    requires NoDuplicates(s)
    ensures NoDuplicates(EraseFirst(s, x))
    ensures forall y :: y in EraseFirst(s, x) <==> y in s && y != x
  {
    if s != [] && s[0] != x {
      assert NoDuplicates(s[1..]) by {
        forall i, j | 0 <= i < j < |s[1..]| ensures s[1..][i] != s[1..][j] {
          assert s[1..][i] == s[i + 1] && s[1..][j] == s[j + 1];
        }
      }
      EraseFirstDistinct(s[1..], x);
      var r := EraseFirst(s, x);
      assert r == [s[0]] + EraseFirst(s[1..], x);
      assert s[0] !in s[1..] by {
        forall i | 0 <= i < |s[1..]| ensures s[1..][i] != s[0] {
          assert s[1..][i] == s[i + 1];
        }
      }
      forall y ensures y in r <==> y in s && y != x {
        assert y in s <==> y == s[0] || y in s[1..];
      }
    } else if s != [] {
      assert s[0] !in s[1..] by {
        forall i | 0 <= i < |s[1..]| ensures s[1..][i] != s[0] {
          assert s[1..][i] == s[i + 1];
        }
      }
      forall y ensures y in s[1..] <==> y in s && y != x {
        assert y in s <==> y == s[0] || y in s[1..];
      }
    }
  }

  class Session {
    const id: string
    /** Whether the server had a peer-connection factory to give the session. */
    const hasFactory: bool
    var config: SessionConfig
    var active: bool
    var peers: map<string, Peer>
    var clients: seq<string>
    var hasVideoSource: bool
    var hasVideoTrack: bool
    var hasMediaStream: bool
    var framesSent: nat
    var bytesSent: nat

    /** Clients are listed once each, and exactly the listed clients hold a peer connection. */
    ghost predicate Valid()
      reads this
    {
      NoDuplicates(clients) && forall c :: c in peers <==> c in clients
    }

    /**
     * A new session starts inactive, without clients, peers or media. The
     * C++ constructor does not initialise stats_, so its frame and byte
     * counts start at whatever `initialFrames` and `initialBytes` hold.
     */
    constructor(id: string, hasFactory: bool, config: SessionConfig, initialFrames: nat, initialBytes: nat)
      ensures Valid() && this.id == id && this.hasFactory == hasFactory && this.config == config
      ensures !active && clients == [] && peers == map[]
      ensures !hasVideoSource && !hasVideoTrack && !hasMediaStream
      ensures framesSent == initialFrames && bytesSent == initialBytes
    {
      this.id := id;
      this.hasFactory := hasFactory;
      this.config := config;
      active := false;
      peers := map[];
      clients := [];
      hasVideoSource, hasVideoTrack, hasMediaStream := false, false, false;
      framesSent, bytesSent := initialFrames, initialBytes;
    }

    /**
     * create_media_stream: the video source, then the track, then the
     * stream are created, each step stopping the setup when it yields
     * nothing; success needs the track added to the stream.
     */
    method CreateMediaStream(setup: MediaSetup) returns (ok: bool)
      modifies this
      ensures ok <==> setup == MediaReady
      ensures hasVideoSource == (setup != NoVideoSource)
      ensures hasVideoTrack == (if setup == NoVideoSource then old(hasVideoTrack) else setup != NoVideoTrack)
      ensures hasMediaStream == (if setup == NoVideoSource || setup == NoVideoTrack then old(hasMediaStream)
                                 else setup != NoMediaStream)
      ensures active == old(active) && config == old(config) && clients == old(clients) && peers == old(peers)
      ensures framesSent == old(framesSent) && bytesSent == old(bytesSent)
    {
      hasVideoSource := setup != NoVideoSource;
      if !hasVideoSource {
        return false;
      }
      hasVideoTrack := setup != NoVideoTrack;
      if !hasVideoTrack {
        return false;
      }
      hasMediaStream := setup != NoMediaStream;
      if !hasMediaStream {
        return false;
      }
      ok := setup != TrackNotAdded;
    }

    /**
     * initialize: fails without a factory, or when the media stream cannot
     * be created; only success makes the session active.
     */
    method Initialize(setup: MediaSetup) returns (ok: bool)
      modifies this
      ensures ok <==> hasFactory && setup == MediaReady
      ensures active == (old(active) || ok)
      ensures !hasFactory ==> unchanged(this)
      ensures hasFactory ==> hasVideoSource == (setup != NoVideoSource)
      ensures config == old(config) && clients == old(clients) && peers == old(peers)
      ensures framesSent == old(framesSent) && bytesSent == old(bytesSent)
    {
      if !hasFactory {
        return false;
      }
      ok := CreateMediaStream(setup);
      if !ok {
        return;
      }
      active := true;
    }

    /** close: nothing when inactive; otherwise inactive, with every peer, client and media object dropped. */
    method Close()
      requires Valid()
      modifies this
      ensures Valid()
      ensures !old(active) ==> unchanged(this)
      ensures old(active) ==> !active && clients == [] && peers == map[]
      ensures old(active) ==> !hasVideoSource && !hasVideoTrack && !hasMediaStream
      ensures config == old(config) && framesSent == old(framesSent) && bytesSent == old(bytesSent)
    {
      if !active {
        return;
      }
      active := false;
      peers := map[];
      clients := [];
      hasMediaStream, hasVideoTrack, hasVideoSource := false, false, false;
    }

    /**
     * add_client: a client already present is accepted as is; otherwise it
     * needs a peer connection (`created`) and, when the session has a media
     * stream, the stream attached to it (`attached`), and is then appended.
     */
    method AddClient(clientId: string, created: Option<Peer>, attached: bool) returns (ok: bool)
      requires Valid()
      modifies this
      ensures Valid()
      ensures clientId in old(clients) ==> ok && unchanged(this)
      ensures clientId !in old(clients) ==>
        (ok <==> created.Some? && (!hasMediaStream || attached))
      ensures clientId !in old(clients) && !ok ==> unchanged(this)
      ensures clientId !in old(clients) && ok ==>
        clients == old(clients) + [clientId] && peers == old(peers)[clientId := created.value]
      ensures active == old(active) && config == old(config) && hasMediaStream == old(hasMediaStream)
      ensures hasVideoSource == old(hasVideoSource) && hasVideoTrack == old(hasVideoTrack)
      ensures framesSent == old(framesSent) && bytesSent == old(bytesSent)
    {
      if clientId in clients {
        return true;
      }
      if created.None? {
        return false;
      }
      if hasMediaStream && !attached {
        return false;
      }
      peers := peers[clientId := created.value];
      clients := clients + [clientId];
      ok := true;
      forall i, j | 0 <= i < j < |clients| ensures clients[i] != clients[j] {
        if j == |clients| - 1 {
          assert clients[i] in old(clients);
        }
      }
    }

    /** remove_client: the client leaves the list and loses its peer connection; absent, nothing changes. */
    method RemoveClient(clientId: string)
      requires Valid()
      modifies this
      ensures Valid()
      ensures clients == EraseFirst(old(clients), clientId) && peers == old(peers) - {clientId}
      ensures clientId !in clients && clientId !in peers
      ensures forall c :: c in clients <==> c in old(clients) && c != clientId
      ensures clientId !in old(clients) ==> unchanged(this)
      ensures active == old(active) && config == old(config) && hasMediaStream == old(hasMediaStream)
      ensures hasVideoSource == old(hasVideoSource) && hasVideoTrack == old(hasVideoTrack)
      ensures framesSent == old(framesSent) && bytesSent == old(bytesSent)
    {
      if clientId !in clients {
        EraseFirstAbsent(clients, clientId);
      }
      EraseFirstDistinct(clients, clientId);
      clients := EraseFirst(clients, clientId);
      CleanupPeerConnection(clientId);
    }

    /** cleanup_peer_connection: the client's peer connection, if any, is closed and forgotten. */
    method CleanupPeerConnection(clientId: string)
      modifies this
      ensures peers == old(peers) - {clientId} && clientId !in peers
      ensures clientId !in old(peers) ==> unchanged(this)
      ensures active == old(active) && config == old(config) && clients == old(clients)
      ensures hasMediaStream == old(hasMediaStream) && hasVideoSource == old(hasVideoSource)
      ensures hasVideoTrack == old(hasVideoTrack) && framesSent == old(framesSent) && bytesSent == old(bytesSent)
    {
      if clientId in peers {
        peers := peers - {clientId};
      }
    }

    /** get_peer_connection: the client's peer connection, or none for a client without one. */
    method GetPeerConnection(clientId: string) returns (p: Option<Peer>)
      ensures p.Some? <==> clientId in peers
      ensures p.Some? ==> p.value == peers[clientId]
    {
      if clientId in peers {
        p := Some(peers[clientId]);
      } else {
        p := None;
      }
    }

    /** send_frame: counted (one frame, its size in bytes) only while a video source exists. */
    method SendFrame(frame: seq<byte>)
      modifies this
      ensures hasVideoSource ==> framesSent == old(framesSent) + 1 && bytesSent == old(bytesSent) + |frame|
      ensures !hasVideoSource ==> framesSent == old(framesSent) && bytesSent == old(bytesSent)
      ensures active == old(active) && config == old(config) && clients == old(clients) && peers == old(peers)
      ensures hasVideoSource == old(hasVideoSource) && hasVideoTrack == old(hasVideoTrack)
      ensures hasMediaStream == old(hasMediaStream)
    {
      if hasVideoSource {
        framesSent := framesSent + 1;
        bytesSent := bytesSent + |frame|;
      }
    }

    /** send_frame_to_client: the client is not consulted; the frame goes through send_frame for the whole session. */
    method SendFrameToClient(clientId: string, frame: seq<byte>)
      modifies this
      ensures hasVideoSource ==> framesSent == old(framesSent) + 1 && bytesSent == old(bytesSent) + |frame|
      ensures !hasVideoSource ==> framesSent == old(framesSent) && bytesSent == old(bytesSent)
      ensures active == old(active) && config == old(config) && clients == old(clients) && peers == old(peers)
      ensures hasVideoSource == old(hasVideoSource) && hasVideoTrack == old(hasVideoTrack)
      ensures hasMediaStream == old(hasMediaStream)
    {
      SendFrame(frame);
    }

    /** get_clients: the clients in the order they joined, each once, and exactly those holding a peer connection. */
    function GetClients(): (r: seq<string>)
      requires Valid()
      reads this
      ensures NoDuplicates(r) && forall c :: c in r <==> c in peers
      ensures |r| == |clients| && forall i :: 0 <= i < |r| ==> r[i] == clients[i]
    {
      clients
    }

    /** update_config: the whole configuration is replaced. */
    method UpdateConfig(newConfig: SessionConfig)
      modifies this`config
      ensures config == newConfig
    {
      config := newConfig;
    }
  }

  /** Removing a client takes it out of the list entirely, so a second removal changes nothing. */
  lemma RepeatLeave(clients: seq<string>, c: string)
    requires NoDuplicates(clients)
    ensures c !in EraseFirst(clients, c)
    ensures EraseFirst(EraseFirst(clients, c), c) == EraseFirst(clients, c)
  {
    EraseFirstDistinct(clients, c);
    EraseFirstAbsent(EraseFirst(clients, c), c);
  }
}
