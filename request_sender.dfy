/**
 * The request sender: from a curl command line, a proxy and the outcome of the network call, the
 * fetch call it makes and the response envelope it returns. The network itself is an input: the
 * `FetchOutcome` says whether `fetch` timed out, failed, or answered with a status and a text.
 */
module RequestSender {
  import opened Wrappers
  import opened Text
  import opened JsonValues
  import opened Encoding
  import opened Tokenizer
  import opened CurlParser
  import opened CurlProperties

  /** The `credentials` mode of the fetch call. */
  datatype Credentials = Include | SameOrigin

  /** What is sent as the request body: nothing, a string, or the `FormData` entries in order. */
  datatype Payload = NoPayload | TextPayload(text: string) | FormPayload(parts: seq<(string, string)>)

  /** The arguments of the fetch call. */
  datatype FetchCall = FetchCall(target: string, httpMethod: string, headers: map<string, string>, credentials: Credentials, payload: Payload)

  /** How the network call ended: aborted by the 30 s timer, rejected with an error, answered (the
      status and the full response text), or answered but the text could not be read. */
  datatype FetchOutcome =
    | Timeout
    | Failure(name: string, message: string)
    | Response(status: int, text: string)
    | BodyFailure(status: int, name: string, message: string)

  /** The result object; `status` is `null` until a response arrives. */
  datatype Envelope = Envelope(success: bool, data: Json, text: string, truncated: bool, nonJson: bool, error: string, status: Option<int>)

  /** The settled promise (the call made, if any, and the envelope), or a rejected one: an invalid
      proxy makes `new URL` throw before the `try`. */
  datatype Sent = Settled(call: Option<FetchCall>, envelope: Envelope) | Rejected

  const TimeoutMessage := "请求超时"
  const MaxText := 1024 * 1024
  const Blank := Envelope(false, Null, "", false, false, "", None)

  /** The body and type of a parsed request agree: the form fields go with multipart and only with it. */
  predicate BodyMatchesType(req: Descriptor) {
    req.body.FormBody? <==> req.bodyType.Multipart?
  }

  lemma ParsedBodyMatchesType(str: string, host: Host)
    requires ParseCurlSpec(str, host).Parsed?
    ensures BodyMatchesType(ParseCurlSpec(str, host).request)
  {
  }

  /** `credentials`: include cookies exactly when the request has a non-empty Cookie header. */
  function CredentialsFor(headers: map<string, string>): Credentials {
    if "Cookie" in headers && headers["Cookie"] != "" then Include else SameOrigin
  }

  /** The `FormData` entry for a field: a file reference is sent as its name; one with an empty name
      is appended as the object itself, which `FormData` turns into "[object Object]". */
  function FormPart(f: FormField): (r: (string, string))
    ensures r.0 == f.key
    ensures f.value.Plain? ==> r.1 == f.value.text
    ensures f.value.FileRef? && f.value.file != "" ==> r.1 == f.value.file
    ensures f.value.FileRef? && f.value.file == "" ==> r.1 == "[object Object]"
  {
    match f.value
    case Plain(v) => (f.key, v)
    case FileRef(file) => (f.key, if file != "" then file else "[object Object]")
  }

  /** The `forEach` that appends every field to the form, in order. */
  method BuildForm(fields: seq<FormField>) returns (parts: seq<(string, string)>)
    ensures |parts| == |fields|
    ensures forall k :: 0 <= k < |fields| ==> parts[k] == FormPart(fields[k])
  {
    parts := [];
    var i := 0;
    while i < |fields|
      invariant 0 <= i <= |fields|
      invariant |parts| == i
      invariant forall k :: 0 <= k < i ==> parts[k] == FormPart(fields[k])
    {
      parts := parts + [FormPart(fields[i])];
      i := i + 1;
    }
  }

  /** `String(body)` for a body that is not an object. */
  function BodyString(body: Body): string
    requires body.TextBody? || (body.JsonBody? && !TypeofObject(body.value))
  {
    if body.TextBody? then body.text else PrimitiveText(body.value)
  }

  /** The payload and the headers actually sent. */
  function Outgoing(req: Descriptor, host: Host): (r: (Payload, map<string, string>))
    requires BodyMatchesType(req)
  {
    if req.body == NoBody || req.httpMethod == "GET" then (NoPayload, req.headers)
    else if req.bodyType.Multipart? then
      (FormPayload(seq(|req.body.fields|, k requires 0 <= k < |req.body.fields| => FormPart(req.body.fields[k]))), req.headers)
    else if req.body.JsonBody? && TypeofObject(req.body.value) then
      (TextPayload(host.stringify(req.body.value)), WithDefault(req.headers, ContentType, "application/json"))
    else (TextPayload(BodyString(req.body)), req.headers)
  }

  /** The proxy prefix before `new URL`: one trailing `/` removed, then `/` appended. */
  function ProxyBase(proxy: string): string {
    (if |proxy| > 0 && proxy[|proxy| - 1] == '/' then proxy[..|proxy| - 1] else proxy) + "/"
  }

  /** The URL fetched: the request URL, or with a proxy the normalised proxy URL followed by the
      percent-encoded request URL; None when the proxy is not a valid URL. */
  function Target(url: string, proxy: string, host: Host): Option<string> {
    if proxy == "" then Some(url)
    else
      match host.parseUrl(ProxyBase(proxy))
      case Some(href) => Some(href + EncodeURIComponent(url))
      case None => None
  }

  /** `e.name === 'AbortError' ? '请求超时' : e.message || String(e)`, where `String(e)` of an error
      with an empty message is its name. */
  function ErrorMessage(name: string, message: string): string {
    if name == "AbortError" then TimeoutMessage else if message != "" then message else name
  }

  /** The envelope for a response with status `status` and text `txt`. */
  function ResponseEnvelope(status: int, txt: string, host: Host): (e: Envelope)
    ensures e.success && e.error == "" && e.status == Some(status)
    ensures e.truncated <==> |txt| > MaxText
    ensures |e.text| <= MaxText && e.text <= txt
    ensures !e.truncated ==> e.text == txt
    ensures e.truncated ==> |e.text| == MaxText && e.nonJson && e.data == Null
    ensures !e.truncated ==> match host.parseJson(txt)
      case Some(v) => !e.nonJson && e.data == v
      case None => e.nonJson && e.data == Null
  {
    if |txt| > MaxText then Envelope(true, Null, txt[..MaxText], true, true, "", Some(status))
    else
      match host.parseJson(txt)
      case Some(v) => Envelope(true, v, txt, false, false, "", Some(status))
      case None => Envelope(true, Null, txt, false, true, "", Some(status))
  }

  /** The envelope for a fetch outcome. */
  function OutcomeEnvelope(outcome: FetchOutcome, host: Host): Envelope {
    match outcome
    case Timeout => Blank.(error := TimeoutMessage)
    case Failure(name, message) => Blank.(error := ErrorMessage(name, message))
    case Response(status, txt) => ResponseEnvelope(status, txt, host)
    case BodyFailure(status, name, message) => Blank.(error := ErrorMessage(name, message), status := Some(status))
  }

  /** The whole sender. */
  function SendSpec(curlText: string, proxy: string, host: Host, outcome: FetchOutcome): Sent {
    match ParseCurlSpec(curlText, host)
    case ParseError(message) => Settled(None, Blank.(error := message))
    case Parsed(req) =>
      ParsedBodyMatchesType(curlText, host);
      var (payload, headers) := Outgoing(req, host);
      match Target(req.url, proxy, host)
      case None => Rejected
      case Some(target) =>
        Settled(Some(FetchCall(target, req.httpMethod, headers, CredentialsFor(req.headers), payload)), OutcomeEnvelope(outcome, host))
  }

  /** The options of the fetch call: the payload and the headers with their Content-Type default. */
  method BuildOptions(req: Descriptor, host: Host) returns (payload: Payload, headers: map<string, string>)
    requires BodyMatchesType(req)
    ensures (payload, headers) == Outgoing(req, host)
  {
    headers := req.headers;
    payload := NoPayload;
    if req.body != NoBody && req.httpMethod != "GET" {
      if req.bodyType == Multipart {
        var parts := BuildForm(req.body.fields);
        assert parts == seq(|req.body.fields|, k requires 0 <= k < |req.body.fields| => FormPart(req.body.fields[k]));
        payload := FormPayload(parts);
      } else if req.body.JsonBody? && TypeofObject(req.body.value) {
        payload := TextPayload(host.stringify(req.body.value));
        headers := headers[ContentType := if ContentType in headers && headers[ContentType] != "" then headers[ContentType] else "application/json"];
      } else {
        payload := TextPayload(BodyString(req.body));
      }
    }
  }

  /** The envelope filled in field by field once the call has settled. */
  method Settle(outcome: FetchOutcome, host: Host) returns (result: Envelope)
    ensures result == OutcomeEnvelope(outcome, host)
  {
    result := Blank;
    match outcome {
      case Timeout =>
        result := result.(error := TimeoutMessage);
      case Failure(name, message) =>
        result := result.(error := if name == "AbortError" then TimeoutMessage else if message != "" then message else name);
      case BodyFailure(status, name, message) =>
        result := result.(status := Some(status));
        result := result.(error := if name == "AbortError" then TimeoutMessage else if message != "" then message else name);
      case Response(status, txt) =>
        result := result.(status := Some(status));
        result := result.(text := if |txt| > MaxText then txt[..MaxText] else txt);
        result := result.(truncated := |txt| > MaxText);
        if result.truncated {
          result := result.(nonJson := true);
          result := result.(success := true);
        } else {
          var parsed := host.parseJson(result.text);
          if parsed.Some? {
            result := result.(data := parsed.value);
            result := result.(success := true);
          } else {
            result := result.(nonJson := true);
            result := result.(success := true);
          }
        }
    }
  }

  /** `sendCurlRequest`: parse, build the options, rewrite the target for the proxy, then settle. */
  method SendCurlRequest(curlText: string, proxy: string, host: Host, outcome: FetchOutcome) returns (sent: Sent)
    ensures sent == SendSpec(curlText, proxy, host, outcome)
  {
    var p := ParseCurl(curlText, host);
    if p.ParseError? {
      var result := Blank;
      result := result.(error := p.message);
      return Settled(None, result);
    }
    var req := p.request;
    ParsedBodyMatchesType(curlText, host);
    var credentials := if "Cookie" in req.headers && req.headers["Cookie"] != "" then Include else SameOrigin;
    var payload, headers := BuildOptions(req, host);
    var url := ProxyTarget(req.url, proxy, host);
    if url.None? {
      return Rejected;
    }
    var call := FetchCall(url.value, req.httpMethod, headers, credentials, payload);
    var result := Settle(outcome, host);
    sent := Settled(Some(call), result);
  }

  /** The proxy rewrite of the target URL; None where `new URL` throws. */
  method ProxyTarget(url0: string, proxy: string, host: Host) returns (url: Option<string>)
    ensures url == Target(url0, proxy, host)
  {
    url := Some(url0);
    if proxy != "" {
      var base := if |proxy| > 0 && proxy[|proxy| - 1] == '/' then proxy[..|proxy| - 1] else proxy;
      var href := host.parseUrl(base + "/");
      if href.None? {
        return None;
      }
      url := Some(href.value + EncodeURIComponent(url0));
    }
  }

  /** A command that does not parse settles without a call: `success` false, the parser's message
      as `error`, no status, no data, no text. */
  lemma SendParseFailure(curlText: string, proxy: string, host: Host, outcome: FetchOutcome)
    requires ParseCurlSpec(curlText, host).ParseError?
    ensures SendSpec(curlText, proxy, host, outcome) ==
      Settled(None, Envelope(false, Null, "", false, false, ParseCurlSpec(curlText, host).message, None))
  {
  }

  /** The value of the last option that writes a Cookie header (`-b`, or `-H` naming Cookie), or
      empty when there is none. */
  function LastCookie(t: seq<string>): string {
    match LastCursor(t, 1, HeaderFor("Cookie"))
    case Some(p) => HeaderWrite(t, p).value.1
    case None => ""
  }

  /** Cookies are included exactly when the last option writing a Cookie header wrote a non-empty value. */
  lemma SendCredentials(curlText: string, proxy: string, host: Host, outcome: FetchOutcome)
    requires SendSpec(curlText, proxy, host, outcome).Settled?
    requires SendSpec(curlText, proxy, host, outcome).call.Some?
    ensures SendSpec(curlText, proxy, host, outcome).call.value.credentials == Include <==>
      LastCookie(Lex(Trim(curlText))) != ""
  {
    var t := Lex(Trim(curlText));
    var d := Dispatch(t, 1, InitDraft);
    DispatchHeader(t, 1, InitDraft, "Cookie");
    ResolveOtherHeaders(t, d, host, "Cookie");
  }

  /** A body is sent only for a present body and a method other than GET; form fields are sent as
      form entries in order; only an object body is stringified, and only then may Content-Type be
      added; no other header changes. */
  lemma OutgoingRules(req: Descriptor, host: Host)
    requires BodyMatchesType(req)
    ensures var (payload, headers) := Outgoing(req, host);
      (payload.NoPayload? <==> req.body == NoBody || req.httpMethod == "GET") &&
      (payload.FormPayload? <==> req.body.FormBody? && req.httpMethod != "GET") &&
      (payload.FormPayload? ==>
        |payload.parts| == |req.body.fields| &&
        forall k :: 0 <= k < |payload.parts| ==> payload.parts[k] == FormPart(req.body.fields[k])) &&
      (forall k :: k != ContentType ==> (k in headers <==> k in req.headers) && (k in req.headers ==> headers[k] == req.headers[k]))
    ensures var (payload, headers) := Outgoing(req, host);
      if req.httpMethod != "GET" && req.body.JsonBody? && TypeofObject(req.body.value) then
        payload == TextPayload(host.stringify(req.body.value)) &&
        ContentType in headers &&
        headers[ContentType] == (if ContentType in req.headers && req.headers[ContentType] != "" then req.headers[ContentType] else "application/json")
      else
        (ContentType in headers <==> ContentType in req.headers) &&
        (ContentType in req.headers ==> headers[ContentType] == req.headers[ContentType])
  {
  }

  /** A string body, or a parsed number or boolean, is sent as its `String` form. */
  lemma OutgoingText(req: Descriptor, host: Host)
    requires BodyMatchesType(req) && req.httpMethod != "GET"
    requires req.body.TextBody? || (req.body.JsonBody? && !TypeofObject(req.body.value))
    ensures Outgoing(req, host).0 == TextPayload(BodyString(req.body))
    ensures req.body.TextBody? ==> BodyString(req.body) == req.body.text
  {
  }

  /** The proxy prefix always ends in `/`, and normalising it again changes nothing. */
  lemma ProxyBaseIdempotent(proxy: string)
    ensures |ProxyBase(proxy)| > 0 && ProxyBase(proxy)[|ProxyBase(proxy)| - 1] == '/'
    ensures ProxyBase(ProxyBase(proxy)) == ProxyBase(proxy)
  {
    var b := ProxyBase(proxy);
    assert b[..|b| - 1] + "/" == b;
  }

  /** A proxy given with or without its trailing `/` is the same prefix; only one `/` is removed. */
  lemma ProxyBaseTrailingSlash(base: string)
    requires |base| == 0 || base[|base| - 1] != '/'
    ensures ProxyBase(base) == base + "/"
    ensures ProxyBase(base + "/") == base + "/"
    ensures ProxyBase(base + "//") == base + "//"
  {
    assert (base + "/")[..|base|] == base;
    assert (base + "//")[..|base| + 1] == base + "/";
  }

  /** Without a proxy the request URL is fetched as it is. */
  lemma TargetWithoutProxy(url: string, host: Host)
    ensures Target(url, "", host) == Some(url)
  {
  }

  /** Through a proxy the request URL follows the normalised proxy percent-encoded: it carries no `/`,
      `:`, `?` or `#` of its own, and decodes back to the UTF-8 bytes of the original URL. */
  lemma TargetThroughProxy(url: string, proxy: string, host: Host, href: string)
    requires proxy != "" && host.parseUrl(ProxyBase(proxy)) == Some(href)
    ensures Target(url, proxy, host) == Some(href + EncodeURIComponent(url))
    ensures var e := EncodeURIComponent(url);
      forall k :: 0 <= k < |e| ==> e[k] != '/' && e[k] != ':' && e[k] != '?' && e[k] != '#'
    ensures PercentDecode(EncodeURIComponent(url)) == Utf8(url)
  {
    var e := EncodeURIComponent(url);
    forall k | 0 <= k < |e| ensures e[k] != '/' && e[k] != ':' && e[k] != '?' && e[k] != '#' {
      assert Unreserved(e[k]) || e[k] == '%' || IsUpperHex(e[k]);
    }
    DecodeEncodeURIComponent(url);
  }

  /** A proxy that `new URL` rejects rejects the whole call. */
  lemma InvalidProxyRejects(curlText: string, proxy: string, host: Host, outcome: FetchOutcome)
    requires ParseCurlSpec(curlText, host).Parsed?
    requires proxy != "" && host.parseUrl(ProxyBase(proxy)) == None
    ensures SendSpec(curlText, proxy, host, outcome) == Rejected
  {
  }

  /** Above the limit no JSON parse is attempted: the envelope is the same whatever the parser. */
  lemma TruncatedSkipsParse(status: int, txt: string, h1: Host, h2: Host)
    requires |txt| > MaxText
    ensures ResponseEnvelope(status, txt, h1) == ResponseEnvelope(status, txt, h2)
  {
  }

  /** `success` holds exactly when a response text was read, whatever the HTTP status. */
  lemma OutcomeSuccess(outcome: FetchOutcome, host: Host)
    ensures OutcomeEnvelope(outcome, host).success <==> outcome.Response?
    ensures outcome.Response? ==> OutcomeEnvelope(outcome, host).status == Some(outcome.status)
  {
  }

  /** A transport error leaves `data` null, `text` empty and `truncated`/`nonJson` false, and reports
      the timeout message for an abort and otherwise the message, or the error's name without one;
      the status is known only when the error came after the response. */
  lemma OutcomeErrors(outcome: FetchOutcome, host: Host)
    requires !outcome.Response?
    ensures var e := OutcomeEnvelope(outcome, host);
      !e.success && e.data == Null && e.text == "" && !e.truncated && !e.nonJson &&
      (outcome.Timeout? ==> e.error == TimeoutMessage && e.status == None) &&
      (outcome.Failure? ==> e.status == None) &&
      (outcome.BodyFailure? ==> e.status == Some(outcome.status)) &&
      (!outcome.Timeout? ==>
        e.error == if outcome.name == "AbortError" then TimeoutMessage
                   else if outcome.message != "" then outcome.message else outcome.name)
  {
  }

  /** Once parsed and past the proxy, the call carries the request's method, and the envelope depends
      on the outcome alone. */
  lemma SendSettles(curlText: string, proxy: string, host: Host, outcome: FetchOutcome)
    requires ParseCurlSpec(curlText, host).Parsed?
    requires Target(ParseCurlSpec(curlText, host).request.url, proxy, host).Some?
    ensures var sent := SendSpec(curlText, proxy, host, outcome);
      var req := ParseCurlSpec(curlText, host).request;
      sent.Settled? && sent.call.Some? &&
      sent.call.value.target == Target(req.url, proxy, host).value &&
      sent.call.value.httpMethod == req.httpMethod &&
      sent.envelope == OutcomeEnvelope(outcome, host)
  {
  }
}
