/** Validation of the configured backend endpoint and derivation of its HTTP
    and WebSocket URLs. The validator applies an ordered chain of rejection
    rules and reports the first that fires. */
module UrlConfig {
  import opened Wrappers
  import opened Text

  datatype UrlError =
    | EmptyUrl
    | MalformedScheme
    | MalformedSeparator
    | UnsupportedScheme(scheme: string)
    | MissingHost
    | InvalidHostChars
    | EmptyPort
    | InvalidPort
    | PortOutOfRange

  const MaxPort := 65535

  predicate At(s: string, i: int, c: char) {
    0 <= i < |s| && s[i] == c
  }

  predicate NonSlashAt(s: string, i: int) {
    0 <= i < |s| && s[i] != '/'
  }

  /** "://" at position `i`, character by character. */
  lemma SeparatorAt(s: string, i: int)
    ensures OccursAt(s, "://", i) <==> At(s, i, ':') && At(s, i + 1, '/') && At(s, i + 2, '/')
  {
    if At(s, i, ':') && At(s, i + 1, '/') && At(s, i + 2, '/') {
      assert s[i..i + 3] == "://";
    }
    if OccursAt(s, "://", i) {
      assert s[i..i + 3][0] == ':' && s[i..i + 3][1] == '/' && s[i..i + 3][2] == '/';
    }
  }

  /** `get_scheme`: the text before the first "://", or `None`. */
  function GetScheme(url: string): (r: Option<string>)
    ensures r.None? <==> forall i :: 0 <= i ==> !OccursAt(url, "://", i)
    ensures r.Some? ==> OccursAt(url, "://", |r.value|) && r.value == url[..|r.value|]
    ensures r.Some? ==> forall i :: 0 <= i < |r.value| ==> !OccursAt(url, "://", i)
  {
    var i := Find(url, "://");
    if i == -1 then None else Some(url[..i])
  }

  /** The leading `https?` of the malformed-URL patterns, ending at index `k`
      (4 for "http", 5 for "https"). */
  predicate HttpWord(url: string, k: int) {
    && At(url, 0, 'h') && At(url, 1, 't') && At(url, 2, 't') && At(url, 3, 'p')
    && (k == 4 || (k == 5 && At(url, 4, 's')))
  }

  /** `^https?:/[^/]`: a single slash after the colon. */
  predicate SingleSlash(url: string) {
    exists k | k in {4, 5} :: HttpWord(url, k) && At(url, k, ':') && At(url, k + 1, '/') && NonSlashAt(url, k + 2)
  }

  /** `^https?//[^/]` (colon missing) or `^https?:[^/]` (slashes missing). */
  predicate BadSeparator(url: string) {
    exists k | k in {4, 5} :: HttpWord(url, k) &&
      ((At(url, k, '/') && At(url, k + 1, '/') && NonSlashAt(url, k + 2)) || (At(url, k, ':') && NonSlashAt(url, k + 1)))
  }

  /** A scheme counts only when it is non-empty (Python truthiness). */
  predicate HasScheme(url: string) {
    GetScheme(url).Some? && |GetScheme(url).value| > 0
  }

  /** The host part the validator inspects: after "scheme://" when there is a
      scheme, the whole URL otherwise, with trailing slashes removed. */
  function HostPart(url: string): string {
    var scheme := GetScheme(url);
    var rest := if scheme.Some? && |scheme.value| > 0 then url[|scheme.value| + 3..] else url;
    RStrip(rest, '/')
  }

  predicate NoSlash(s: string) {
    forall k :: 0 <= k < |s| ==> s[k] != '/'
  }

  /** A colon whose remainder, to the end, holds no slash. */
  predicate PortColon(h: string, j: int) {
    0 <= j < |h| && h[j] == ':' && NoSlash(h[j + 1..])
  }

  /** Leftmost match position of `re.search(r":([^/]*)$", h)` at or after `from`.
      (`$` could also match before a final newline, but the host part holds
      no whitespace by the time this runs.) */
  function PortColonFrom(h: string, from: nat): (r: Option<nat>)
    ensures r.Some? ==> from <= r.value && PortColon(h, r.value)
    ensures r.Some? ==> forall k :: from <= k < r.value ==> !PortColon(h, k)
    ensures r.None? ==> forall k :: from <= k ==> !PortColon(h, k)
    decreases |h| - from
  {
    if from >= |h| then None
    else if PortColon(h, from) then Some(from)
    else PortColonFrom(h, from + 1)
  }

  /** The port text the validator checks: group 1 of the search, if it matched. */
  function PortText(h: string): Option<string> {
    match PortColonFrom(h, 0)
    case None => None
    case Some(j) => Some(h[j + 1..])
  }

  /** The port rules, applied to the text after the colon. */
  function CheckPort(port: Option<string>): (r: Result<(), UrlError>)
    ensures r.Ok? <==>
      (port.None? || (|port.value| > 0 && AllAsciiDigits(port.value) && DigitsValue(port.value) <= MaxPort))
  {
    match port
    case None => Ok(())
    case Some(t) =>
      if |t| == 0 then Err(EmptyPort)
      else if !AllAsciiDigits(t) then Err(InvalidPort)
      else if DigitsValue(t) > MaxPort then Err(PortOutOfRange)
      else Ok(())
  }

  /** Rules 1 to 3: blank input and the two malformed-prefix patterns. */
  function CheckForm(url: string): Result<(), UrlError> {
    if IsBlank(url) then Err(EmptyUrl)
    else if SingleSlash(url) then Err(MalformedScheme)
    else if BadSeparator(url) then Err(MalformedSeparator)
    else Ok(())
  }

  /** Rule 4: a non-empty scheme must be http or https. */
  function CheckScheme(url: string): Result<(), UrlError> {
    if HasScheme(url) && GetScheme(url).value !in {"http", "https"} then
      Err(UnsupportedScheme(GetScheme(url).value))
    else Ok(())
  }

  /** Rules 5 to 7, on the host part: present, free of whitespace, sound port. */
  function CheckHost(host: string): Result<(), UrlError> {
    if IsBlank(host) then Err(MissingHost)
    else if HasSpace(host) then Err(InvalidHostChars)
    else CheckPort(PortText(host))
  }

  /** `_validate_url`: `Ok` or the first rule that rejects the URL. */
  function ValidateUrl(url: string): (r: Result<(), UrlError>)
    ensures IsBlank(url) ==> r == Err(EmptyUrl)
    ensures r.Ok? ==> !SingleSlash(url) && !BadSeparator(url)
    ensures r.Ok? && HasScheme(url) ==> GetScheme(url).value in {"http", "https"}
    ensures r.Ok? ==> |HostPart(url)| > 0 && !HasSpace(HostPart(url))
    ensures r.Ok? ==> CheckPort(PortText(HostPart(url))).Ok?
  {
    var _ :- CheckForm(url);
    var _ :- CheckScheme(url);
    CheckHost(HostPart(url))
  }

  // ------------------------------------------------------------ endpoints

  datatype Endpoints = Endpoints(http: string, ws: string)

  datatype EndpointError =
    | Invalid(reason: UrlError)
    /** The `{"http": "ws", "https": "wss"}[scheme]` lookup failed. */
    | BadFormat

  function WsScheme(scheme: string): Option<string> {
    if scheme == "http" then Some("ws") else if scheme == "https" then Some("wss") else None
  }

  /** The two URLs name the same address: http:// pairs with ws://, https:// with wss://. */
  predicate SameAddress(e: Endpoints) {
    || (StartsWith(e.http, "https://") && e.ws == "wss://" + e.http[8..])
    || (StartsWith(e.http, "http://") && !StartsWith(e.http, "https://") && e.ws == "ws://" + e.http[7..])
  }

  /** The derivation branch of `get_backend_endpoints` for an endpoint that is set
      and not local: validate, then rewrite the scheme for the WebSocket URL. */
  function BackendEndpoints(endpoint: string): (r: Result<Endpoints, EndpointError>)
    ensures ValidateUrl(endpoint).Err? ==> r == Err(Invalid(ValidateUrl(endpoint).error))
    ensures r.Ok? <==> ValidateUrl(endpoint).Ok?
    ensures r.Ok? ==> |r.value.http| > 0 && r.value.http[|r.value.http| - 1] != '/'
    ensures r.Ok? ==> SameAddress(r.value)
    ensures r.Ok? && !HasScheme(endpoint) ==>
      r.value == Endpoints("http://" + RStrip(endpoint, '/'), "ws://" + RStrip(endpoint, '/'))
    ensures r.Ok? && HasScheme(endpoint) ==> r.value.http == RStrip(endpoint, '/')
  {
    match ValidateUrl(endpoint)
    case Err(e) => Err(Invalid(e))
    case Ok(_) =>
      var stripped := RStrip(endpoint, '/');
      if HasScheme(endpoint) then
        var scheme := GetScheme(endpoint).value;
        match WsScheme(scheme)
        case None => Err(BadFormat)
        case Some(w) =>
          SchemeRewrite(endpoint);
          Ok(Endpoints(stripped, ReplaceFirst(stripped, scheme, w)))
      else
        SchemelessPrefix(endpoint);
        Ok(Endpoints("http://" + stripped, "ws://" + stripped))
  }

  /** Stripping slashes from `p + rest`, with a non-empty stripped rest, keeps `p`. */
  lemma {:induction false} RStripOfSuffix(p: string, rest: string)
    requires |RStrip(rest, '/')| > 0
    ensures RStrip(p + rest, '/') == p + RStrip(rest, '/')
    decreases |rest|
  {
    if |rest| > 0 && rest[|rest| - 1] == '/' {
      assert (p + rest)[..|p + rest| - 1] == p + rest[..|rest| - 1];
      RStripOfSuffix(p, rest[..|rest| - 1]);
    }
  }

  /** With a valid scheme, the stripped endpoint is "scheme://" plus the host part. */
  lemma StrippedWithScheme(url: string)
    requires HasScheme(url) && |HostPart(url)| > 0
    ensures var s := GetScheme(url).value;
      RStrip(url, '/') == s + "://" + HostPart(url)
  {
    var s := GetScheme(url).value;
    var rest := url[|s| + 3..];
    assert url[|s|..|s| + 3] == "://" by { assert OccursAt(url, "://", |s|); }
    assert url == s + "://" + rest;
    RStripOfSuffix(s + "://", rest);
  }

  /** "http://h" pairs with "ws://h" and "https://h" with "wss://h". */
  lemma SameAddressOf(https: bool, host: string)
    ensures https ==> SameAddress(Endpoints("https://" + host, "wss://" + host))
    ensures !https ==> SameAddress(Endpoints("http://" + host, "ws://" + host))
  {
    if https {
      var http := "https://" + host;
      assert http[..8] == "https://";
      assert http[8..] == host;
    } else {
      var http := "http://" + host;
      assert http[..7] == "http://";
      assert http[7..] == host;
      assert http[4] == ':';
      assert !StartsWith(http, "https://");
    }
  }

  /** Replacing a leading target replaces just that prefix. */
  lemma ReplacePrefix(target: string, rest: string, replacement: string)
    requires |target| > 0
    ensures ReplaceFirst(target + rest, target, replacement) == replacement + rest
  {
    var s := target + rest;
    assert s[..|target|] == target;
    assert s[|target|..] == rest;
  }

  /** Rewriting the scheme of "scheme://host" gives the matching WebSocket URL. */
  lemma RewriteScheme(s: string, host: string)
    requires s in {"http", "https"} && |host| > 0 && host[|host| - 1] != '/'
    ensures var stripped := s + "://" + host;
      && stripped[|stripped| - 1] != '/'
      && SameAddress(Endpoints(stripped, ReplaceFirst(stripped, s, WsScheme(s).value)))
  {
    var stripped := s + "://" + host;
    assert stripped[|stripped| - 1] == host[|host| - 1];
    ReplacePrefix(s, "://" + host, WsScheme(s).value);
    assert stripped == s + ("://" + host);
    if s == "https" {
      RewriteHttps(host);
    } else {
      RewriteHttp(host);
    }
  }

  lemma RewriteHttps(host: string)
    ensures SameAddress(Endpoints("https" + "://" + host, "wss" + ("://" + host)))
  {
    assert "https" + "://" + host == "https://" + host;
    assert "wss" + ("://" + host) == "wss://" + host;
    SameAddressOf(true, host);
  }

  lemma RewriteHttp(host: string)
    ensures SameAddress(Endpoints("http" + "://" + host, "ws" + ("://" + host)))
  {
    assert "http" + "://" + host == "http://" + host;
    assert "ws" + ("://" + host) == "ws://" + host;
    SameAddressOf(false, host);
  }

  /** The scheme rewrite in the WebSocket URL touches only the leading scheme. */
  lemma SchemeRewrite(url: string)
    requires HasScheme(url) && GetScheme(url).value in {"http", "https"} && |HostPart(url)| > 0
    ensures var s := GetScheme(url).value;
      var stripped := RStrip(url, '/');
      && WsScheme(s).Some?
      && |stripped| > 0 && stripped[|stripped| - 1] != '/'
      && SameAddress(Endpoints(stripped, ReplaceFirst(stripped, s, WsScheme(s).value)))
  {
    StrippedWithScheme(url);
    RewriteScheme(GetScheme(url).value, HostPart(url));
  }

  lemma HostPartWithoutScheme(url: string)
    requires !HasScheme(url)
    ensures HostPart(url) == RStrip(url, '/')
  {
  }

  /** Without a scheme, the stripped endpoint is the non-empty host part. */
  lemma SchemelessPrefix(url: string)
    requires !HasScheme(url) && |HostPart(url)| > 0
    ensures var stripped := RStrip(url, '/');
      && |stripped| > 0 && stripped[|stripped| - 1] != '/'
      && SameAddress(Endpoints("http://" + stripped, "ws://" + stripped))
  {
    var stripped := RStrip(url, '/');
    HostPartWithoutScheme(url);
    assert |stripped| > 0;
    SameAddressOf(false, stripped);
  }

  // ------------------------------------------------------- URL shapes

  /** A host name with no whitespace, colon or slash. */
  predicate PlainHost(host: string) {
    |host| > 0 && forall i :: 0 <= i < |host| ==> !IsSpace(host[i]) && host[i] != ':' && host[i] != '/'
  }

  /** Port text with no whitespace and no slash. */
  predicate PlainText(t: string) {
    forall i :: 0 <= i < |t| ==> !IsSpace(t[i]) && t[i] != '/'
  }

  function PortSuffix(port: Option<string>): string {
    if port.Some? then ":" + port.value else ""
  }

  /** `[scheme "://"] host [":" port] ["/"]`. */
  function Compose(scheme: Option<string>, host: string, port: Option<string>, trailingSlash: bool): string {
    (if scheme.Some? then scheme.value + "://" else "") + (host + PortSuffix(port)) + (if trailingSlash then "/" else "")
  }

  lemma SchemeOfComposed(scheme: string, tail: string)
    requires forall i :: 0 <= i < |scheme| ==> scheme[i] != ':'
    ensures GetScheme(scheme + "://" + tail) == Some(scheme)
  {
    var url := scheme + "://" + tail;
    SeparatorAt(url, |scheme|);
    var r := GetScheme(url);
    SeparatorAt(url, |r.value|);
    assert url[..|scheme|] == scheme;
  }

  lemma NoSchemeIn(url: string)
    requires forall i :: 0 <= i < |url| - 1 ==> url[i] != '/'
    ensures GetScheme(url).None?
  {
    forall i | 0 <= i
      ensures !OccursAt(url, "://", i)
    {
      SeparatorAt(url, i);
    }
  }

  /** The colon before the port is the one the port search finds. */
  lemma PortTextOf(host: string, port: Option<string>)
    requires forall i :: 0 <= i < |host| ==> host[i] != ':'
    requires port.Some? ==> PlainText(port.value)
    ensures PortText(host + PortSuffix(port)) == port
  {
    var body := host + PortSuffix(port);
    if port.Some? {
      assert body[|host| + 1..] == port.value;
      assert PortColon(body, |host|);
    }
  }

  /** With a supported scheme, the host part is what follows "://", less trailing slashes. */
  lemma HostPartWithScheme(https: bool, body: string)
    requires |body| > 0 && body[|body| - 1] != '/'
    ensures var url := (if https then "https://" else "http://") + body;
      && HasScheme(url)
      && GetScheme(url) == Some(if https then "https" else "http")
      && CheckScheme(url) == Ok(())
      && HostPart(url) == body
  {
    var scheme := if https then "https" else "http";
    var url := (if https then "https://" else "http://") + body;
    assert url == scheme + "://" + body;
    SchemeOfComposed(scheme, body);
    assert url[|scheme| + 3..] == body;
  }

  /** A composed body never ends in a slash: it ends in the host or the port. */
  lemma BodyEnd(host: string, port: Option<string>)
    requires PlainHost(host)
    requires port.Some? ==> PlainText(port.value)
    ensures var body := host + PortSuffix(port);
      |body| > 0 && body[|body| - 1] != '/'
  {
    var body := host + PortSuffix(port);
    if port.Some? && |port.value| > 0 {
      assert body[|body| - 1] == port.value[|port.value| - 1];
    } else {
      assert body[|body| - 1] == host[|host| - 1] || body[|body| - 1] == ':';
    }
  }

  /** Stripping the optional trailing slash of `body + slash` gives `body`. */
  lemma StripTrailing(body: string, trailingSlash: bool)
    requires |body| > 0 && body[|body| - 1] != '/'
    ensures RStrip(body + (if trailingSlash then "/" else ""), '/') == body
  {
    var rest := body + (if trailingSlash then "/" else "");
    if trailingSlash {
      assert rest[..|rest| - 1] == body;
    } else {
      assert rest == body;
    }
  }

  lemma HostPartComposedWithScheme(scheme: string, host: string, port: Option<string>, trailingSlash: bool)
    requires scheme in {"http", "https"}
    requires PlainHost(host)
    requires port.Some? ==> PlainText(port.value)
    ensures var url := Compose(Some(scheme), host, port, trailingSlash);
      && HasScheme(url)
      && GetScheme(url) == Some(scheme)
      && HostPart(url) == host + PortSuffix(port)
  {
    var url := Compose(Some(scheme), host, port, trailingSlash);
    var body := host + PortSuffix(port);
    var rest := body + (if trailingSlash then "/" else "");
    BodyEnd(host, port);
    assert url == scheme + "://" + rest;
    SchemeOfComposed(scheme, rest);
    assert url[|scheme| + 3..] == rest;
    StripTrailing(body, trailingSlash);
  }

  /** A composed body holds no slash at all. */
  lemma BodyHasNoSlash(host: string, port: Option<string>)
    requires PlainHost(host)
    requires port.Some? ==> PlainText(port.value)
    ensures var body := host + PortSuffix(port);
      forall i :: 0 <= i < |body| ==> body[i] != '/'
  {
    var body := host + PortSuffix(port);
    forall i | 0 <= i < |body|
      ensures body[i] != '/'
    {
      if i < |host| {
        assert body[i] == host[i];
      } else if i > |host| {
        assert body[i] == port.value[i - |host| - 1];
      }
    }
  }

  lemma HostPartComposedWithoutScheme(host: string, port: Option<string>, trailingSlash: bool)
    requires PlainHost(host)
    requires port.Some? ==> PlainText(port.value)
    ensures var url := Compose(None, host, port, trailingSlash);
      && !HasScheme(url)
      && HostPart(url) == host + PortSuffix(port)
  {
    var body := host + PortSuffix(port);
    var url := body + (if trailingSlash then "/" else "");
    assert Compose(None, host, port, trailingSlash) == url;
    BodyEnd(host, port);
    BodyHasNoSlash(host, port);
    assert forall i :: 0 <= i < |url| - 1 ==> url[i] == body[i];
    NoSchemeIn(url);
    StripTrailing(body, trailingSlash);
  }

  lemma HostPartOf(scheme: Option<string>, host: string, port: Option<string>, trailingSlash: bool)
    requires scheme in {None, Some("http"), Some("https")}
    requires PlainHost(host)
    requires port.Some? ==> PlainText(port.value)
    ensures var url := Compose(scheme, host, port, trailingSlash);
      && HasScheme(url) == scheme.Some?
      && (scheme.Some? ==> GetScheme(url) == scheme)
      && HostPart(url) == host + PortSuffix(port)
  {
    if scheme.Some? {
      HostPartComposedWithScheme(scheme.value, host, port, trailingSlash);
    } else {
      HostPartComposedWithoutScheme(host, port, trailingSlash);
    }
  }

  /** Once the form and scheme rules pass, the verdict is the host rules'. */
  lemma ValidateByStages(url: string)
    requires CheckForm(url) == Ok(()) && CheckScheme(url) == Ok(())
    ensures ValidateUrl(url) == CheckHost(HostPart(url))
  {
  }

  lemma FormWithScheme(https: bool, tail: string)
    ensures CheckForm((if https then "https://" else "http://") + tail) == Ok(())
  {
    var url := (if https then "https://" else "http://") + tail;
    if https {
      assert url[4] == 's' && url[5] == ':' && url[6] == '/' && url[7] == '/';
    } else {
      assert url[4] == ':' && url[5] == '/' && url[6] == '/';
    }
    assert !IsSpace(url[0]);
  }

  lemma FormWithoutScheme(host: string, rest: string)
    requires |host| > 0 && forall i :: 0 <= i < |host| ==> host[i] != ':' && host[i] != '/'
    requires host !in {"http", "https"} && !IsBlank(host + rest)
    requires |rest| > 0 ==> rest[0] in {':', '/'}
    ensures CheckForm(host + rest) == Ok(())
  {
    var url := host + rest;
    assert forall i :: 0 <= i < |host| ==> url[i] == host[i];
    assert |rest| > 0 ==> url[|host|] == rest[0];
    forall k | k in {4, 5} && HttpWord(url, k) && (At(url, k, ':') || At(url, k, '/'))
      ensures false
    {
      // mentioning the two literals lets the solver compare them with `host`
      var spelled := host == "http" || host == "https";
    }
  }

  lemma PlainHostNotBlank(host: string, rest: string)
    requires PlainHost(host)
    ensures !IsBlank(host + rest) && !IsBlank(host)
  {
    assert (host + rest)[0] == host[0];
  }

  lemma FormComposedWithScheme(https: bool, host: string, port: Option<string>, trailingSlash: bool)
    ensures CheckForm(Compose(Some(if https then "https" else "http"), host, port, trailingSlash)) == Ok(())
  {
    var tail := host + PortSuffix(port) + (if trailingSlash then "/" else "");
    if https {
      assert Compose(Some("https"), host, port, trailingSlash) == "https://" + tail;
    } else {
      assert Compose(Some("http"), host, port, trailingSlash) == "http://" + tail;
    }
    FormWithScheme(https, tail);
  }

  lemma FormComposedWithoutScheme(host: string, port: Option<string>, trailingSlash: bool)
    requires host !in {"http", "https"}
    requires PlainHost(host)
    ensures CheckForm(Compose(None, host, port, trailingSlash)) == Ok(())
  {
    var rest := PortSuffix(port) + (if trailingSlash then "/" else "");
    assert Compose(None, host, port, trailingSlash) == host + rest;
    PlainHostNotBlank(host, rest);
    FormWithoutScheme(host, rest);
  }

  /** None of the malformed-prefix patterns fits a composed URL. */
  lemma FormOfComposed(scheme: Option<string>, host: string, port: Option<string>, trailingSlash: bool)
    requires scheme in {None, Some("http"), Some("https")}
    requires scheme.None? ==> host !in {"http", "https"}
    requires PlainHost(host)
    ensures CheckForm(Compose(scheme, host, port, trailingSlash)) == Ok(())
  {
    if scheme.Some? {
      FormComposedWithScheme(scheme.value == "https", host, port, trailingSlash);
    } else {
      FormComposedWithoutScheme(host, port, trailingSlash);
    }
  }

  /** A URL built from a supported scheme (or none), a plain host, an optional
      port and an optional trailing slash passes or fails exactly on its port. */
  lemma ComposedUrlVerdict(scheme: Option<string>, host: string, port: Option<string>, trailingSlash: bool)
    requires scheme in {None, Some("http"), Some("https")}
    requires scheme.None? ==> host !in {"http", "https"}
    requires PlainHost(host)
    requires port.Some? ==> PlainText(port.value)
    ensures ValidateUrl(Compose(scheme, host, port, trailingSlash)) == CheckPort(port)
  {
    var url := Compose(scheme, host, port, trailingSlash);
    FormOfComposed(scheme, host, port, trailingSlash);
    HostPartOf(scheme, host, port, trailingSlash);
    assert CheckScheme(url) == Ok(());
    ValidateByStages(url);
    HostOfComposed(host, port);
  }

  /** The host rules on `host[:port]` reduce to the port rule. */
  lemma HostOfComposed(host: string, port: Option<string>)
    requires PlainHost(host)
    requires port.Some? ==> PlainText(port.value)
    ensures CheckHost(host + PortSuffix(port)) == CheckPort(port)
  {
    PortTextOf(host, port);
    var h := host + PortSuffix(port);
    assert !IsSpace(h[0]) by { assert h[0] == host[0]; }
    assert !HasSpace(h) by {
      forall i | 0 <= i < |h| ensures !IsSpace(h[i]) {
        if i < |host| { assert h[i] == host[i]; }
        else if i > |host| { assert h[i] == port.value[i - |host| - 1]; }
      }
    }
  }

  /** Every well-formed endpoint with a port in range is accepted. */
  lemma AcceptsWellFormed(scheme: Option<string>, host: string, port: Option<nat>, trailingSlash: bool)
    requires scheme in {None, Some("http"), Some("https")}
    requires scheme.None? ==> host !in {"http", "https"}
    requires PlainHost(host)
    requires port.Some? ==> port.value <= MaxPort
    ensures ValidateUrl(Compose(scheme, host, if port.Some? then Some(NatToString(port.value)) else None, trailingSlash)).Ok?
  {
    var text := if port.Some? then Some(NatToString(port.value)) else None;
    if port.Some? {
      NatToStringRoundTrip(port.value);
      assert PlainText(text.value) by {
        forall i | 0 <= i < |text.value| ensures !IsSpace(text.value[i]) && text.value[i] != '/' {
          assert IsAsciiDigit(text.value[i]);
        }
      }
    }
    ComposedUrlVerdict(scheme, host, text, trailingSlash);
  }

  /** An empty port, a non-numeric port and a port above 65535 are each
      rejected with their own error. */
  lemma RejectsBadPorts(scheme: Option<string>, host: string, port: string, trailingSlash: bool)
    requires scheme in {None, Some("http"), Some("https")}
    requires scheme.None? ==> host !in {"http", "https"}
    requires PlainHost(host) && PlainText(port)
    ensures var r := ValidateUrl(Compose(scheme, host, Some(port), trailingSlash));
      && (|port| == 0 ==> r == Err(EmptyPort))
      && (|port| > 0 && !AllAsciiDigits(port) ==> r == Err(InvalidPort))
      && (|port| > 0 && AllAsciiDigits(port) && DigitsValue(port) > MaxPort ==> r == Err(PortOutOfRange))
  {
    ComposedUrlVerdict(scheme, host, Some(port), trailingSlash);
  }

  /** The single-slash rule fires before any scheme check, whatever follows. */
  lemma SingleSlashRejectedFirst(https: bool, rest: string)
    requires |rest| > 0 && rest[0] != '/'
    ensures ValidateUrl((if https then "https:/" else "http:/") + rest) == Err(MalformedScheme)
  {
    var url := (if https then "https:/" else "http:/") + rest;
    assert !IsSpace(url[0]);
    var k := if https then 5 else 4;
    assert url[k] == ':' && url[k + 1] == '/' && url[k + 2] == rest[0];
    assert HttpWord(url, k);
  }

  /** `http//x` and `http:x` are rejected as malformed separators. */
  lemma BadSeparatorRejected(https: bool, colon: bool, rest: string)
    requires |rest| > 0 && rest[0] != '/'
    ensures ValidateUrl((if https then "https" else "http") + (if colon then ":" else "//") + rest)
            == Err(MalformedSeparator)
  {
    var url := (if https then "https" else "http") + (if colon then ":" else "//") + rest;
    assert !IsSpace(url[0]);
    var k := if https then 5 else 4;
    assert HttpWord(url, k);
    if https {
      assert url[4] == 's';
    }
    if colon {
      assert url[k] == ':' && url[k + 1] == rest[0];
    } else {
      assert url[k] == '/' && url[k + 1] == '/' && url[k + 2] == rest[0];
      assert At(url, k, '/') && At(url, k + 1, '/') && NonSlashAt(url, k + 2);
    }

  }

  /** A scheme other than http or https (free of ':' and '/') is rejected by name. */
  lemma UnsupportedSchemeRejected(scheme: string, rest: string)
    requires |scheme| > 0 && scheme !in {"http", "https"}
    requires forall i :: 0 <= i < |scheme| ==> scheme[i] != ':' && scheme[i] != '/'
    ensures ValidateUrl(scheme + "://" + rest) == Err(UnsupportedScheme(scheme))
  {
    var url := scheme + "://" + rest;
    SchemeOfComposed(scheme, rest);
    assert url == scheme + ("://" + rest);
    assert !IsSpace(url[|scheme|]);
    FormWithoutScheme(scheme, "://" + rest);
  }

  /** With "/" at `slashAt` and no colon after it, no colon is a port colon. */
  lemma NoPortColon(body: string, slashAt: int)
    requires 0 <= slashAt < |body| && body[slashAt] == '/'
    requires forall i :: slashAt < i < |body| ==> body[i] != ':'
    ensures PortText(body).None?
  {
    forall k | 0 <= k ensures !PortColon(body, k) {

    }
  }

  /** The host part "host:port/path" passes the host rules: it is not blank,
      holds no whitespace, and its only colons come before a slash. */
  lemma HostWithPathPasses(host: string, port: string, path: string)
    requires PlainHost(host) && PlainText(port)
    requires |path| > 0 && path[|path| - 1] != '/'
    requires forall i :: 0 <= i < |path| ==> !IsSpace(path[i]) && path[i] != ':'
    ensures var body := host + ":" + port + "/" + path;
      |body| > 0 && body[|body| - 1] != '/' && CheckHost(body) == Ok(())
  {
    var body := host + ":" + port + "/" + path;
    assert body[|body| - 1] == path[|path| - 1];
    var slashAt := |host| + 1 + |port|;
    assert forall i :: slashAt < i < |body| ==> body[i] == path[i - slashAt - 1];
    NoPortColon(body, slashAt);
    PlainHostNotBlank(host, ":" + port + "/" + path);
    assert body == host + (":" + port + "/" + path);
    assert !HasSpace(body) by {
      forall i | 0 <= i < |body| ensures !IsSpace(body[i]) {
        if i < |host| { assert body[i] == host[i]; }
        else if |host| < i < slashAt { assert body[i] == port[i - |host| - 1]; }
      }
    }
  }

  /** As written, the port rule looks only at a colon suffix that runs to the
      end of the host part: a port followed by a path is never checked, so an
      out-of-range or non-numeric port before "/path" is accepted. */
  lemma PortBeforePathIsNotChecked(https: bool, host: string, port: string, path: string)
    requires PlainHost(host) && PlainText(port)
    requires |path| > 0 && path[|path| - 1] != '/'
    requires forall i :: 0 <= i < |path| ==> !IsSpace(path[i]) && path[i] != ':'
    ensures ValidateUrl((if https then "https://" else "http://") + (host + ":" + port + "/" + path)).Ok?
  {
    var body := host + ":" + port + "/" + path;
    var url := (if https then "https://" else "http://") + body;
    HostWithPathPasses(host, port, path);
    FormWithScheme(https, body);
    HostPartWithScheme(https, body);
    ValidateByStages(url);
  }
}
