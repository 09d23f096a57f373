/** The edge's capacity settings: defaults, bounds, and the memory they can expose. */
module EdgeLimits {
  const MAX_PER_SESSION := 128
  const MAX_STREAMS := 256
  const MAX_PREAUTH := 128
  const MAX_SESSIONS := 8
  const MIN_WINDOW := 256 * 1024
  const MAX_WINDOW := 16 * 1024 * 1024
  const YAMUX_EXPOSURE := 0x4000_0000
  const QUIC_CONNECTION_WINDOW := 64 * 1024 * 1024
  const QUIC_EXPOSURE := 512 * 1024 * 1024
  const LEGACY_AGENT_STREAMS := 64

  /** The settings FinalizeRuntime reads or fills in. */
  datatype Settings = Settings(
    perSession: int, total: int, preauth: int, sessions: int, window: int, maxBody: int,
    disableQuic: bool, listenQuic: string, listenHttps: string)

  datatype Verdict = Fine | BadWindow | BadPerSession | BadTotal | BadPreauth | BadSessions | BadListen | YamuxExposed | QuicExposed

  function Default(x: int, d: int): int {
    if x == 0 then d else x
  }

  /** The settings with every omitted one filled in. */
  function Filled(v: Settings): Settings {
    Settings(
      Default(v.perSession, 64), Default(v.total, 128), Default(v.preauth, 32), Default(v.sessions, 8),
      Default(v.window, 4 * 1024 * 1024), Default(v.maxBody, 32 * 1024 * 1024),
      v.disableQuic || (v.perSession == 0 && v.total == 0 && v.preauth == 0 && v.sessions == 0),
      if v.listenQuic == "" then v.listenHttps else v.listenQuic, v.listenHttps)
  }

  /** What a configuration must satisfy to be served, in any order of checking. */
  predicate Serveable(v: Settings, udpAddress: string -> bool) {
    && MIN_WINDOW <= v.window <= MAX_WINDOW
    && 1 <= v.perSession <= MAX_PER_SESSION && v.perSession <= v.total <= MAX_STREAMS
    && 1 <= v.preauth <= MAX_PREAUTH && 1 <= v.sessions <= MAX_SESSIONS
    && (v.disableQuic || udpAddress(v.listenQuic))
    && v.window * v.total <= YAMUX_EXPOSURE
  }

  class Server {
    var v: Settings

    constructor (settings: Settings)
      ensures v == settings
    {
      v := settings;
    }

    /** Fills the omitted settings in place, then accepts exactly the serveable ones. The settings are filled
        on every path, refused or not, and the QUIC exposure check never refuses. */
    method FinalizeRuntime(udpAddress: string -> bool) returns (r: Verdict)
      modifies this
      ensures v == Filled(old(v))
      ensures r == Fine <==> Serveable(v, udpAddress)
      ensures r != Fine ==> Wrong(v, udpAddress, r)
      ensures r != QuicExposed
    {
      FillDefaults();
      r := Check(v, udpAddress);
    }

    /** Fills the omitted settings in place. */
    method FillDefaults()
      modifies this
      ensures v == Filled(old(v))
    {
      if v.maxBody == 0 { v := v.(maxBody := 32 * 1024 * 1024); }
      var allCapacitiesZero := v.perSession == 0 && v.total == 0 && v.preauth == 0 && v.sessions == 0;
      if allCapacitiesZero { v := v.(disableQuic := true); }
      if v.perSession == 0 { v := v.(perSession := 64); }
      if v.total == 0 { v := v.(total := 128); }
      if v.preauth == 0 { v := v.(preauth := 32); }
      if v.sessions == 0 { v := v.(sessions := 8); }
      if v.listenQuic == "" { v := v.(listenQuic := v.listenHttps); }
      if v.window == 0 { v := v.(window := 4 * 1024 * 1024); }
    }
  }

  /** A refusal names a setting that is wrong. */
  predicate Wrong(v: Settings, udpAddress: string -> bool, r: Verdict) {
    match r
    case Fine => false
    case BadWindow => v.window < MIN_WINDOW || v.window > MAX_WINDOW
    case BadPerSession => v.perSession < 1 || v.perSession > MAX_PER_SESSION
    case BadTotal => v.total < v.perSession || v.total > MAX_STREAMS
    case BadPreauth => v.preauth < 1 || v.preauth > MAX_PREAUTH
    case BadSessions => v.sessions < 1 || v.sessions > MAX_SESSIONS
    case BadListen => !v.disableQuic && !udpAddress(v.listenQuic)
    case YamuxExposed => v.window * v.total > YAMUX_EXPOSURE
    case QuicExposed => false
  }

  /** The checks, in the order they are made. */
  method Check(v: Settings, udpAddress: string -> bool) returns (r: Verdict)
    ensures r == Fine <==> Serveable(v, udpAddress)
    ensures r != Fine ==> Wrong(v, udpAddress, r)
    ensures r != QuicExposed
  {
    if v.window < MIN_WINDOW || v.window > MAX_WINDOW { return BadWindow; }
    if v.perSession < 1 || v.perSession > MAX_PER_SESSION { return BadPerSession; }
    if v.total < v.perSession || v.total > MAX_STREAMS { return BadTotal; }
    if v.preauth < 1 || v.preauth > MAX_PREAUTH { return BadPreauth; }
    if v.sessions < 1 || v.sessions > MAX_SESSIONS { return BadSessions; }
    if !v.disableQuic && !udpAddress(v.listenQuic) { return BadListen; }
    ExposureFits(v.window, v.total);
    if v.window * v.total > YAMUX_EXPOSURE { return YamuxExposed; }
    if QUIC_CONNECTION_WINDOW * v.sessions > QUIC_EXPOSURE { return QuicExposed; }
    return Fine;
  }

  lemma ProductGrows(a: nat, b: nat, k: nat)
    requires a <= b
    ensures a * k <= b * k
  {
  }

  /** The exposure products are taken on bounded operands, so they cannot wrap a 64-bit integer. */
  lemma ExposureFits(window: int, streams: int)
    requires MIN_WINDOW <= window <= MAX_WINDOW && 0 <= streams <= MAX_STREAMS
    ensures 0 <= window * streams <= 0x1_0000_0000 < 0x8000_0000_0000_0000
  {
    ProductGrows(window, MAX_WINDOW, streams);
    assert MAX_WINDOW * streams <= 0x1_0000_0000;
  }

  /** Finalizing twice is finalizing once. */
  lemma FillIsIdempotent(v: Settings)
    ensures Filled(Filled(v)) == Filled(v)
  {
  }

  /** An agent may ask for fewer streams than configured, never for more; an old agent that asks for none gets
      what old agents can take. */
  function StreamCapacity(configured: int, advertised: int): (r: int)
    ensures r <= configured
    ensures advertised > 0 ==> r <= advertised
    ensures r == configured || r == advertised || (advertised <= 0 && r == LEGACY_AGENT_STREAMS)
    ensures configured >= 1 ==> r >= 1
  {
    var wanted := if advertised <= 0 then LEGACY_AGENT_STREAMS else advertised;
    if wanted < configured then wanted else configured
  }
}
