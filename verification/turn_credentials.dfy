/** Ephemeral TURN credentials in the style of the TURN REST API
    (draft-uberti-behave-turn-rest-00, section 2.2): the username is the
    expiry time and the user id joined by a colon, the password an HMAC of the
    username under a shared secret, and a list of server URIs ordered by
    environment and TLS configuration. */
module TurnCredentials {
  import opened Wrappers
  import opened Text

  /** The deployment settings the credentials are built from. */
  datatype Config = Config(
    secret: Option<string>,
    host: string,
    port: string,
    tlsPort: Option<string>,
    /** Whether the environment is the local one. */
    isLocal: bool,
    defaultTtl: int)

  datatype Credentials = Credentials(username: string, password: string, ttl: int, uris: seq<string>)

  datatype TurnError = SecretNotConfigured

  /** Python truthiness of an optional setting. */
  predicate Given(o: Option<string>) {
    o.Some? && |o.value| > 0
  }

  /** `base64(hmac-sha1(secret, username))` (RFC 2104 with SHA-1, then the
      base64 alphabet of RFC 4648 section 4), taken as a given function. */
  type Signer = (string, string) -> string

  function UdpUri(host: string, port: string): string {
    "turn:" + host + ":" + port
  }

  function TcpUri(host: string, port: string): string {
    "turn:" + host + ":" + port + "?transport=tcp"
  }

  function TlsUris(host: string, tlsPort: string): seq<string> {
    ["turns:" + host + ":" + tlsPort, "turns:" + host + ":" + tlsPort + "?transport=tcp"]
  }

  /** The URI list: the plain pair, TCP first in the local environment and UDP
      first elsewhere, then the two TLS URIs when a TLS port is configured. */
  function Uris(c: Config): (r: seq<string>)
    ensures |r| == (if Given(c.tlsPort) then 4 else 2)
    ensures r[0] == (if c.isLocal then TcpUri(c.host, c.port) else UdpUri(c.host, c.port))
    ensures r[1] == (if c.isLocal then UdpUri(c.host, c.port) else TcpUri(c.host, c.port))
    ensures Given(c.tlsPort) ==> r[2..] == TlsUris(c.host, c.tlsPort.value)
  {
    var plain := if c.isLocal then [TcpUri(c.host, c.port), UdpUri(c.host, c.port)]
                 else [UdpUri(c.host, c.port), TcpUri(c.host, c.port)];
    if Given(c.tlsPort) then plain + TlsUris(c.host, c.tlsPort.value) else plain
  }

  /** `generate_turn_credentials`, with the clock reading `now` (whole seconds)
      and the signer as parameters. */
  function Generate(c: Config, userId: string, ttl: int, now: int, sign: Signer): (r: Result<Credentials, TurnError>)
    ensures r.Err? <==> !Given(c.secret)
    ensures r.Ok? ==> r.value.username == IntToString(now + ttl) + ":" + userId
    ensures r.Ok? ==> r.value.password == sign(c.secret.value, r.value.username)
    ensures r.Ok? ==> r.value.ttl == ttl && r.value.uris == Uris(c)
  {
    if !Given(c.secret) then Err(SecretNotConfigured)
    else
      var username := IntToString(now + ttl) + ":" + userId;
      Ok(Credentials(username, sign(c.secret.value, username), ttl, Uris(c)))
  }

  /** A server reads a username back by splitting at the first colon. */
  function SplitUsername(username: string): Option<(string, string)> {
    var i := Find(username, ":");
    if i == -1 then None else Some((username[..i], username[i + 1..]))
  }

  /** The username carries the expiry time and the user id, and a server
      recovers both: the expiry parses back to `now + ttl` and the rest is the
      user id, whatever characters it holds. */
  lemma UsernameRoundTrip(c: Config, userId: string, ttl: int, now: int, sign: Signer)
    requires Given(c.secret)
    ensures var u := Generate(c, userId, ttl, now, sign).value.username;
      SplitUsername(u).Some?
      && ParseInt(SplitUsername(u).value.0) == Some(now + ttl)
      && SplitUsername(u).value.1 == userId
  {
    var e := IntToString(now + ttl);
    SplitAtFirstColon(e, userId);
    IntToStringRoundTrip(now + ttl);
  }

  /** Splitting `head:rest` at the first colon, when `head` has none, gives both parts back. */
  lemma SplitAtFirstColon(head: string, rest: string)
    requires forall i :: 0 <= i < |head| ==> head[i] != ':'
    ensures SplitUsername(head + ":" + rest) == Some((head, rest))
  {
    var u := head + ":" + rest;
    assert OccursAt(u, ":", |head|) by { assert u[|head|..|head| + 1] == ":"; }
    forall i | 0 <= i < |head|
      ensures !OccursAt(u, ":", i)
    {
      assert u[i] == head[i];
    }
    assert u[..|head|] == head && u[|head| + 1..] == rest;
  }

  /** The environment changes only the order of the URIs, never the set. */
  lemma EnvironmentOnlyReorders(c: Config)
    ensures multiset(Uris(c.(isLocal := true))) == multiset(Uris(c.(isLocal := false)))
  {
    var local := Uris(c.(isLocal := true));
    var other := Uris(c.(isLocal := false));
    assert local[..2] == [TcpUri(c.host, c.port), UdpUri(c.host, c.port)];
    assert other[..2] == [UdpUri(c.host, c.port), TcpUri(c.host, c.port)];
    assert local == local[..2] + local[2..] && other == other[..2] + other[2..];
    assert local[2..] == other[2..];
  }

  /** As written, a TLS URI is never first: the plain pair always leads, so a
      client that takes the first usable URI prefers plain TURN even when TLS
      is configured. */
  lemma PlainUriLeads(c: Config)
    ensures StartsWith(Uris(c)[0], "turn:")
    ensures Given(c.tlsPort) ==> StartsWith(Uris(c)[2], "turns:") && StartsWith(Uris(c)[3], "turns:")
  {
    var h := c.host;
    var p := c.port;
    assert ("turn:" + h + ":" + p)[..5] == "turn:";
    assert ("turn:" + h + ":" + p + "?transport=tcp")[..5] == "turn:";
    if Given(c.tlsPort) {
      var t := c.tlsPort.value;
      assert ("turns:" + h + ":" + t)[..6] == "turns:";
      assert ("turns:" + h + ":" + t + "?transport=tcp")[..6] == "turns:";
    }
  }

  /** `get_turn_credentials` for a signed-in user: empty credentials with no
      URIs when no secret is configured, so the client falls back to STUN. */
  function GetTurnCredentials(c: Config, userId: int, now: int, sign: Signer): (r: Credentials)
    ensures !Given(c.secret) ==> r == Credentials("", "", 0, [])
    ensures Given(c.secret) ==> Ok(r) == Generate(c, IntToString(userId), c.defaultTtl, now, sign)
    ensures Given(c.secret) ==> |r.uris| >= 2 && |r.username| > 0
  {
    if !Given(c.secret) then Credentials("", "", 0, [])
    else Generate(c, IntToString(userId), c.defaultTtl, now, sign).value
  }
}
