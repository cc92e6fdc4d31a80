/**
 * The LiveMode component as an object: its refs and state variables are
 * fields, its event handlers are methods (LiveMode.jsx).  Each handler is
 * specified by the pure functions of Protocol, AlertDebounce, Frames,
 * Backoff and UploadCheck; the class adds the connection lifecycle: one
 * current socket whose handlers are attached, and retired sockets whose
 * handlers were detached before they were closed.
 */
module LiveStream {
  import opened Wrappers
  import Backoff
  import Protocol
  import AlertDebounce
  import Frames
  import UploadCheck

  datatype ReadyState = Connecting | Open | Closing | Closed

  /** The payload of the outbound message `{gps: {lat, lng}}`. */
  datatype Gps = Gps(lat: real, lng: real)

  /** A pending `setTimeout(() => connectWebSocket(attempt), delay)`. */
  datatype Reconnect = Reconnect(attempt: nat, delay: nat)

  /** Width and height of a freshly created canvas element. */
  const DefaultCanvasWidth: nat := 300
  const DefaultCanvasHeight: nat := 150

  class Socket {
    /** The `retry` argument of the connectWebSocket call that opened this socket. */
    const retry: nat
    var state: ReadyState
    /** onopen, onmessage, onerror and onclose are set (not yet nulled). */
    var attached: bool
    /** Outbound messages sent on this socket, in order. */
    var sent: seq<Gps>

    constructor (retry: nat)
      ensures this.retry == retry && state == Connecting && attached && sent == []
    {
      this.retry := retry;
      state := Connecting;
      attached := true;
      sent := [];
    }
  }

  class LiveMode {
    // connection (wsRef and the pending reconnect timers)
    var ws: Socket?
    ghost var retired: set<Socket>
    var reconnects: seq<Reconnect>
    var isConnected: bool
    var location: Option<Gps>
    /** The `currentLocation` captured by connectWebSocket's closures: the value of the mount render. */
    const locationAtMount: Option<Gps>

    // session state written by telemetry and by the upload
    var hazard: Protocol.HazardFlag
    var laneCount: Option<int>
    var distances: seq<real>
    var mode: string
    var videoProgress: real
    var uploading: bool
    var uploads: seq<UploadCheck.FileInfo>

    // alert debounce: alertRef, cooldownRef (as its due time), toasts on screen
    var alertActive: bool
    var clearAt: Option<nat>
    var warningToasts: nat

    // the processed-canvas element and frameCounterRef
    var hasCanvas: bool
    var canvasWidth: nat
    var canvasHeight: nat
    var frameCount: nat
    var lastTs: nat
    var fps: nat

    ghost predicate Valid()
      reads this, ws, retired
    {
      && (ws != null ==> ws.attached && ws !in retired)
      && (forall s :: s in retired ==> !s.attached && (s.state == Closing || s.state == Closed))
      && (forall r :: r in reconnects ==> r.attempt >= 1 && Backoff.BaseDelay <= r.delay <= Backoff.MaxDelay)
      && AlertDebounce.Inv(Alert())
    }

    function SessionView(): Protocol.Session
      reads this
    {
      Protocol.Session(hazard, laneCount, distances, mode, videoProgress)
    }

    function Alert(): AlertDebounce.AlertState
      reads this
    {
      AlertDebounce.AlertState(alertActive, clearAt, warningToasts)
    }

    function FrameView(): Frames.FrameState
      reads this
    {
      Frames.FrameState(canvasWidth, canvasHeight, frameCount, lastTs, fps)
    }

    /** The component at mount; `mountTime` is performance.now() when frameCounterRef is created. */
    constructor (mountTime: nat)
      ensures Valid() && ws == null && retired == {} && reconnects == [] && !isConnected
      ensures location.None? && locationAtMount.None? && !uploading && uploads == []
      ensures SessionView() == Protocol.InitialSession
      ensures Alert() == AlertDebounce.Idle
      ensures !hasCanvas && frameCount == 0 && lastTs == mountTime && fps == 0
    {
      ws := null;
      retired := {};
      reconnects := [];
      isConnected := false;
      location := None;
      locationAtMount := None;
      hazard := Protocol.NoHazard;
      laneCount := Some(0);
      distances := [];
      mode := "live";
      videoProgress := 0.0;
      uploading := false;
      uploads := [];
      alertActive := false;
      clearAt := None;
      warningToasts := 0;
      hasCanvas := false;
      canvasWidth := 0;
      canvasHeight := 0;
      frameCount := 0;
      lastTs := mountTime;
      fps := 0;
    }

    /** connectWebSocket(retry): detach the old socket's handlers, close it, open a new one. */
    method Connect(retry: nat)
      requires Valid()
      modifies this`ws, this`retired, ws
      ensures Valid()
      ensures fresh(ws) && ws.retry == retry && ws.state == Connecting && ws.sent == []
      ensures old(ws) != null ==> (!old(ws).attached &&
        old(ws).state == (if old(ws.state) == Closed then Closed else Closing))
      ensures old(ws) != null ==> old(ws).sent == old(ws.sent)
      ensures retired == if old(ws) != null then old(retired) + {old(ws)} else old(retired)
    {
      if ws != null {
        ws.attached := false;
        if ws.state != Closed {
          ws.state := Closing;
        }
        retired := retired + {ws};
      }
      ws := new Socket(retry);
    }

    /**
     * onopen of the current socket.  The handler reads `currentLocation` from
     * the closure of the mount render, so what it sends is `locationAtMount`.
     */
    method OnOpen()
      requires Valid() && ws != null && ws.state == Connecting
      modifies ws, this`isConnected
      ensures Valid() && isConnected && ws.state == Open
      ensures ws.sent == old(ws.sent) + (if locationAtMount.Some? then [locationAtMount.value] else [])
    {
      ws.state := Open;
      isConnected := true;
      if locationAtMount.Some? {
        ws.sent := ws.sent + [locationAtMount.value];
      }
    }

    /** onopen as evidently intended: send the latest cached fix, if any. */
    method OnOpenLatest()
      requires Valid() && ws != null && ws.state == Connecting
      modifies ws, this`isConnected
      ensures Valid() && isConnected && ws.state == Open
      ensures ws.sent == old(ws.sent) + (if location.Some? then [location.value] else [])
    {
      ws.state := Open;
      isConnected := true;
      if location.Some? {
        ws.sent := ws.sent + [location.value];
      }
    }

    /** onerror of socket `s`; a retired socket has no handler left. */
    method OnError(s: Socket)
      requires Valid() && (s == ws || s in retired)
      modifies this`isConnected
      ensures Valid()
      ensures isConnected == (old(isConnected) && !s.attached)
    {
      if s.attached {
        isConnected := false;
      }
    }

    /** onclose of socket `s`: the current socket schedules connect(retry + 1) after the back-off delay. */
    method OnClose(s: Socket, jitter: nat)
      requires Valid() && (s == ws || s in retired) && s.state != Closed
      requires jitter <= Backoff.MaxJitter
      modifies s`state, this`isConnected, this`reconnects
      ensures Valid() && s.state == Closed
      ensures s == ws ==> (!isConnected &&
        reconnects == old(reconnects) + [Reconnect(s.retry + 1, Backoff.ReconnectDelay(s.retry, jitter))])
      ensures s in retired ==> isConnected == old(isConnected) && reconnects == old(reconnects)
    {
      s.state := Closed;
      if s.attached {
        var delay := Backoff.Min(Backoff.MaxDelay, Backoff.Unjittered(s.retry) + jitter);
        isConnected := false;
        reconnects := reconnects + [Reconnect(s.retry + 1, delay)];
      }
    }

    /** The reconnect timer at index k fires and calls connectWebSocket with its attempt number. */
    method FireReconnect(k: nat)
      requires Valid() && k < |reconnects|
      modifies this`ws, this`retired, this`reconnects, ws
      ensures Valid() && fresh(ws) && ws.state == Connecting
      ensures ws.retry == old(reconnects[k].attempt) && ws.retry >= 1 && ws.sent == []
      ensures reconnects == old(reconnects[..k] + reconnects[k + 1..])
      // the socket it replaces is torn down as by Connect
      ensures old(ws) != null ==> (!old(ws).attached &&
        old(ws).state == (if old(ws.state) == Closed then Closed else Closing))
      ensures old(ws) != null ==> old(ws).sent == old(ws.sent)
      ensures retired == if old(ws) != null then old(retired) + {old(ws)} else old(retired)
    {
      var r := reconnects[k];
      reconnects := reconnects[..k] + reconnects[k + 1..];
      Connect(r.attempt);
    }

    /** A position fix: cached, and sent only while the current socket is open (never queued). */
    method OnLocation(g: Gps)
      requires Valid()
      modifies this`location, ws
      ensures Valid() && location == Some(g)
      ensures ws != null && ws.state == Open ==> ws.sent == old(ws.sent) + [g]
      ensures ws != null && ws.state != Open ==> ws.sent == old(ws.sent)
      ensures ws != null ==> ws.state == old(ws.state) && ws.attached == old(ws.attached)
    {
      location := Some(g);
      if ws != null && ws.state == Open {
        ws.sent := ws.sent + [g];
      }
    }

    /** The alert part of onmessage for one telemetry record. */
    method AlertOnTelemetry(count: Option<int>, now: nat)
      requires Valid()
      modifies this`alertActive, this`clearAt, this`warningToasts
      ensures Valid()
      ensures Alert() == AlertDebounce.OnTelemetry(old(Alert()), count, now)
    {
      if count.Some? && count.value > 0 {
        if !alertActive {
          alertActive := true;
          warningToasts := warningToasts + 1;
        }
        if clearAt.Some? {
          clearAt := None;
        }
      } else {
        if clearAt.None? {
          clearAt := Some(now + AlertDebounce.ClearDelay);
        }
      }
    }

    /** The clear timer fires at time t: dismiss the warning (toast and sound), free the slot. */
    method AlertTimerFire(t: nat)
      requires Valid() && clearAt.Some? && clearAt.value <= t
      modifies this`alertActive, this`clearAt, this`warningToasts
      ensures Valid()
      ensures Alert() == AlertDebounce.OnTimerFire(old(Alert())) && Alert() == AlertDebounce.Idle
    {
      if alertActive {
        warningToasts := warningToasts - 1;
        alertActive := false;
      }
      clearAt := None;
    }

    /** The telemetry branch of onmessage: overwrite the session fields, then run the alert debounce. */
    method ApplyTelemetry(rec: Protocol.TelemetryRecord, now: nat)
      requires Valid()
      modifies this`hazard, this`laneCount, this`distances, this`mode, this`videoProgress
      modifies this`alertActive, this`clearAt, this`warningToasts
      ensures Valid()
      ensures SessionView() == Protocol.ApplyTelemetry(old(SessionView()), rec)
      ensures Alert() == AlertDebounce.OnTelemetry(old(Alert()), rec.laneCount, now)
    {
      hazard := Protocol.Hazard(rec.hazardType);
      laneCount := rec.laneCount;
      distances := if rec.distances.Some? then rec.distances.value else [];
      if Protocol.Truthy(rec.mode) {
        mode := rec.mode.value;
      }
      if rec.videoProgress.Some? {
        videoProgress := rec.videoProgress.value;
      }
      AlertOnTelemetry(rec.laneCount, now);
    }

    /** The binary branch of onmessage, up to the asynchronous decode: find or create the canvas. */
    method EnsureCanvas()
      requires Valid()
      modifies this`hasCanvas, this`canvasWidth, this`canvasHeight
      ensures Valid() && hasCanvas
      ensures old(hasCanvas) ==> FrameView() == old(FrameView())
      ensures !old(hasCanvas) ==> canvasWidth == DefaultCanvasWidth && canvasHeight == DefaultCanvasHeight
    {
      if !hasCanvas {
        hasCanvas := true;
        canvasWidth, canvasHeight := DefaultCanvasWidth, DefaultCanvasHeight;
      }
    }

    /** onmessage of socket `s` at time `now`; a retired socket has no handler left. */
    method OnMessage(s: Socket, p: Protocol.Payload, now: nat)
      requires Valid() && (s == ws || s in retired)
      modifies this`hazard, this`laneCount, this`distances, this`mode, this`videoProgress
      modifies this`alertActive, this`clearAt, this`warningToasts
      modifies this`hasCanvas, this`canvasWidth, this`canvasHeight
      ensures Valid()
      ensures !s.attached ==> (SessionView() == old(SessionView()) && Alert() == old(Alert()) &&
        hasCanvas == old(hasCanvas) && FrameView() == old(FrameView()))
      ensures s.attached ==> SessionView() == Protocol.OnMessage(old(SessionView()), p)
      ensures s.attached && Protocol.Classify(p).TelemetryMsg? ==>
        Alert() == AlertDebounce.OnTelemetry(old(Alert()), Protocol.Classify(p).rec.laneCount, now)
      ensures !Protocol.Classify(p).TelemetryMsg? ==> Alert() == old(Alert())
      ensures s.attached && p.Binary? ==> hasCanvas
      ensures !(s.attached && p.Binary?) ==> hasCanvas == old(hasCanvas)
      ensures old(hasCanvas) || !(s.attached && p.Binary?) ==> FrameView() == old(FrameView())
      ensures !old(hasCanvas) && s.attached && p.Binary? ==>
        canvasWidth == DefaultCanvasWidth && canvasHeight == DefaultCanvasHeight
    {
      if !s.attached {
        return;
      }
      match Protocol.Classify(p)
      case TelemetryMsg(rec) =>
        ApplyTelemetry(rec, now);
      case FrameMsg =>
        EnsureCanvas();
      case _ =>
    }

    /** A decode started by a binary message completes at time `now` (either decode path). */
    method PaintFrame(decoded: Option<Frames.Bitmap>, now: nat) returns (resized: bool)
      requires Valid() && hasCanvas
      modifies this`canvasWidth, this`canvasHeight, this`frameCount, this`lastTs, this`fps
      ensures Valid()
      ensures FrameView() == Frames.Paint(old(FrameView()), decoded, now)
      ensures resized <==> decoded.Some? && Frames.Resizes(old(FrameView()), decoded.value)
    {
      resized := false;
      if decoded.Some? {
        var b := decoded.value;
        if canvasWidth != b.width || canvasHeight != b.height {
          canvasWidth, canvasHeight := b.width, b.height;
          resized := true;
        }
        frameCount := frameCount + 1;
        if now - lastTs >= Frames.FpsWindow {
          fps := frameCount;
          frameCount := 0;
          lastTs := now;
        }
      }
    }

    /** handleFileUpload up to the request: a rejected or missing file sends nothing. */
    method HandleFileUpload(file: Option<UploadCheck.FileInfo>) returns (d: UploadCheck.Decision)
      requires Valid()
      modifies this`uploading, this`uploads
      ensures Valid()
      ensures d == UploadCheck.Decide(file)
      ensures d != UploadCheck.Accepted ==> uploading == old(uploading) && uploads == old(uploads)
      ensures d == UploadCheck.Accepted ==> uploading && uploads == old(uploads) + [file.value]
    {
      if file.None? {
        return UploadCheck.NoFile;
      }
      var f := file.value;
      if f.mimeType !in UploadCheck.AllowedTypes && !UploadCheck.HasVideoExtension(f.name) {
        return UploadCheck.Rejected;
      }
      uploading := true;
      uploads := uploads + [f];
      d := UploadCheck.Accepted;
    }

    /** The upload request settles: `finally` clears `uploading`; success switches to video mode. */
    method UploadSettled(success: bool)
      requires Valid()
      modifies this`uploading, this`mode
      ensures Valid() && !uploading
      ensures mode == if success then "video" else old(mode)
    {
      if success {
        mode := "video";
      }
      uploading := false;
    }

    /** The unmount cleanup of the connection effect: close the socket, its handlers still attached. */
    method Unmount()
      requires Valid()
      modifies ws
      ensures Valid()
      ensures ws != null ==> ws.attached && ws.sent == old(ws.sent) && ws.state == (if old(ws.state) == Closed then Closed else Closing)
    {
      if ws != null && ws.state != Closed {
        ws.state := Closing;
      }
    }

    /** The unmount cleanup as evidently intended: detach and close the socket, cancel pending reconnects. */
    method UnmountQuiet()
      requires Valid()
      modifies this`ws, this`retired, this`reconnects, ws
      ensures Valid() && ws == null && reconnects == []
      ensures old(ws) != null ==> !old(ws).attached && old(ws) in retired
      ensures old(ws) != null ==> old(ws).state == (if old(ws.state) == Closed then Closed else Closing)
    {
      if ws != null {
        ws.attached := false;
        if ws.state != Closed {
          ws.state := Closing;
        }
        retired := retired + {ws};
      }
      ws := null;
      reconnects := [];
    }
  }

  /** Scenario: a fix cached while the socket connects is still not sent when it opens. */
  method FixBeforeOpenNeverSent() returns (sent: seq<Gps>)
    ensures sent == []
  {
    var c := new LiveMode(0);
    c.Connect(0);
    c.OnLocation(Gps(40.0, -74.0));
    c.OnOpen();
    sent := c.ws.sent;
  }

  /** Scenario: with the intended onopen, the fix cached while connecting is the first message sent. */
  method FixBeforeOpenSentByLatest() returns (first: Gps)
    ensures first == Gps(40.0, -74.0)
  {
    var c := new LiveMode(0);
    c.Connect(0);
    c.OnLocation(Gps(40.0, -74.0));
    c.OnOpenLatest();
    first := c.ws.sent[0];
  }

  /** Scenario: after unmount the close of the still-attached socket schedules a reconnect. */
  method UnmountedComponentReconnects(jitter: nat) returns (scheduled: nat)
    requires jitter <= Backoff.MaxJitter
    ensures scheduled == 1
  {
    var c := new LiveMode(0);
    c.Connect(0);
    c.OnOpen();
    c.Unmount();
    c.OnClose(c.ws, jitter);
    scheduled := |c.reconnects|;
  }

  /** Scenario: after the intended unmount the socket's close schedules nothing. */
  method QuietUnmountIsFinal(jitter: nat) returns (scheduled: nat)
    requires jitter <= Backoff.MaxJitter
    ensures scheduled == 0
  {
    var c := new LiveMode(0);
    c.Connect(0);
    c.OnOpen();
    var s := c.ws;
    c.UnmountQuiet();
    c.OnClose(s, jitter);
    scheduled := |c.reconnects|;
  }

  /** Scenario: a close of the socket opened with retry = 3 schedules attempt 4 within [8000, 8500] ms. */
  method ReconnectAfterThirdRetry(jitter: nat) returns (r: Reconnect)
    requires jitter <= Backoff.MaxJitter
    ensures r.attempt == 4 && 8000 <= r.delay <= 8500
  {
    var c := new LiveMode(0);
    c.Connect(3);
    c.OnOpen();
    c.OnClose(c.ws, jitter);
    r := c.reconnects[0];
    Backoff.DelayAtThirdRetry(jitter);
  }

  /** Scenario: once replaced, an old socket's close schedules no reconnect; only the current one does. */
  method ReplacedSocketCloseIsSilent(jitter: nat) returns (scheduled: nat)
    requires jitter <= Backoff.MaxJitter
    ensures scheduled == 1
  {
    var c := new LiveMode(0);
    c.Connect(0);
    var first := c.ws;
    c.Connect(1);
    c.OnClose(first, jitter);
    assert c.reconnects == [];
    c.OnClose(c.ws, jitter);
    scheduled := |c.reconnects|;
  }
}
