/**
 * The curl command interpreter: the flag dispatcher that fills a request draft token by token, and
 * the body resolver that fixes the body, Content-Type, method, `-G` query folding and Basic
 * authorization once the tokens are consumed.
 *
 * `Step` and `Dispatch` specify the dispatch loop, `Resolve` the resolution; `ParseCurl` is the
 * imperative parser, proved to return `ParseCurlSpec` of its input.
 */
module CurlParser {
  import opened Wrappers
  import opened Text
  import opened JsonValues
  import opened Encoding
  import opened Tokenizer

  /** The JavaScript library calls of the core, abstracted as functions. */
  datatype Host = Host(
    parseJson: string -> Option<Json>,   // JSON.parse; None where it throws
    searchParams: Json -> string,        // new URLSearchParams(v).toString()
    stringify: Json -> string,           // JSON.stringify
    parseUrl: string -> Option<string>)  // new URL(s).href; None where it throws

  datatype BodyType = NoType | Raw | Urlencoded | Multipart

  /** A `-F` value: a plain string, or `{file: name}` for `@name`. */
  datatype FormValue = Plain(text: string) | FileRef(file: string)

  datatype FormField = FormField(key: string, value: FormValue)

  /** The resolved body: `null`, a string, a parsed JSON value that is neither `null` nor a string,
      or the list of form fields. */
  datatype Body = NoBody | TextBody(text: string) | JsonBody(value: Json) | FormBody(fields: seq<FormField>)

  /** The request in progress while the tokens are dispatched; `body` and `auth` are `null` until set. */
  datatype Draft = Draft(
    httpMethod: string,
    url: string,
    headers: map<string, string>,
    body: Option<string>,
    bodyType: BodyType,
    getMode: bool,
    auth: Option<string>,
    formData: seq<FormField>)

  /** The resolved request. */
  datatype Descriptor = Descriptor(httpMethod: string, url: string, headers: map<string, string>, body: Body, bodyType: BodyType)

  datatype ParseResult = Parsed(request: Descriptor) | ParseError(message: string)

  const EmptyInput := "空输入"
  const NotCurl := "必须以curl开头"
  const NoUrl := "未提供URL"
  const ContentType := "Content-Type"
  const Authorization := "Authorization"

  const InitDraft := Draft("GET", "", map[], None, NoType, false, None, [])

  /** The options the dispatcher recognises. */
  datatype Flag = Request | Header | Data | DataUrlencode | Get | Form | UserAgent | Referer | Cookie | User | NotAFlag

  function Classify(tok: string): Flag {
    if tok == "-X" || tok == "--request" then Request
    else if tok == "-H" || tok == "--header" then Header
    else if tok == "-d" || tok == "--data" || tok == "--data-raw" || tok == "--data-binary" then Data
    else if tok == "--data-urlencode" then DataUrlencode
    else if tok == "-G" || tok == "--get" then Get
    else if tok == "-F" || tok == "--form" then Form
    else if tok == "-A" || tok == "--user-agent" then UserAgent
    else if tok == "-e" || tok == "--referer" then Referer
    else if tok == "-b" || tok == "--cookie" then Cookie
    else if tok == "-u" || tok == "--user" then User
    else NotAFlag
  }

  /** Every recognised option except `-G` consumes the next token as its argument. */
  predicate TakesArgument(f: Flag) {
    !f.Get? && !f.NotAFlag?
  }

  /** Where the cursor goes after dispatching the token at `i`. */
  function NextPos(t: seq<string>, i: nat): (j: nat)
    requires i < |t|
    ensures j == i + 1 || j == i + 2
  {
    if TakesArgument(Classify(t[i])) then i + 2 else i + 1
  }

  /** `t[i] || default`: the token at `i`, or `default` when it is missing or empty. */
  function ArgOr(t: seq<string>, i: nat, default: string): string {
    if i < |t| && t[i] != "" then t[i] else default
  }

  predicate IsHttp(tok: string) {
    StartsWith(tok, "http://") || StartsWith(tok, "https://")
  }

  /** `-H k: v`: split at the first `:` and trim both halves; no `:` means no header. */
  function SplitHeader(h: string): Option<(string, string)> {
    var idx := IndexOf(h, ':');
    if idx > -1 then Some((Trim(h[..idx]), Trim(h[idx + 1..]))) else None
  }

  /** `--data-urlencode kv`: percent-encode what follows the first `=`, or all of `kv` if it has none. */
  function UrlencodePiece(kv: string): string {
    var j := IndexOf(kv, '=');
    if j > -1 then kv[..j] + "=" + EncodeURIComponent(kv[j + 1..]) else EncodeURIComponent(kv)
  }

  /** `-F kv`: split at the first `=`; a value `@name` is a file reference; no `=` means no field. */
  function FormFieldOf(kv: string): Option<FormField> {
    var j := IndexOf(kv, '=');
    if j > -1 then
      var v := kv[j + 1..];
      Some(FormField(kv[..j], if StartsWith(v, "@") then FileRef(v[1..]) else Plain(v)))
    else None
  }

  function FieldList(f: Option<FormField>): seq<FormField> {
    if f.Some? then [f.value] else []
  }

  /** `body ? body + data : data` for `-d` and its family. */
  function AppendRaw(body: Option<string>, data: string): string {
    if body.Some? && body.value != "" then body.value + data else data
  }

  /** `body ? body + '&' + part : part` for `--data-urlencode`. */
  function AppendEncoded(body: Option<string>, part: string): string {
    if body.Some? && body.value != "" then body.value + "&" + part else part
  }

  /** The effect of the token at cursor position `i` on the draft. */
  function Step(t: seq<string>, i: nat, d: Draft): Draft
    requires i < |t|
  {
    match Classify(t[i])
    case Request => d.(httpMethod := AsciiUpper(ArgOr(t, i + 1, "GET")))
    case Header =>
      var kv := SplitHeader(ArgOr(t, i + 1, ""));
      if kv.Some? then d.(headers := d.headers[kv.value.0 := kv.value.1]) else d
    case Data => d.(body := Some(AppendRaw(d.body, ArgOr(t, i + 1, ""))), bodyType := Raw)
    case DataUrlencode => d.(body := Some(AppendEncoded(d.body, UrlencodePiece(ArgOr(t, i + 1, "")))), bodyType := Urlencoded)
    case Get => d.(getMode := true)
    case Form =>
      d.(formData := d.formData + FieldList(FormFieldOf(ArgOr(t, i + 1, ""))), bodyType := Multipart)
    case UserAgent => d.(headers := d.headers["User-Agent" := ArgOr(t, i + 1, "")])
    case Referer => d.(headers := d.headers["Referer" := ArgOr(t, i + 1, "")])
    case Cookie => d.(headers := d.headers["Cookie" := ArgOr(t, i + 1, "")])
    case User => d.(auth := Some(ArgOr(t, i + 1, "")))
    case NotAFlag =>
      if IsHttp(t[i]) || (d.url == "" && i == |t| - 1) then d.(url := t[i]) else d
  }

  /** The dispatch loop from cursor position `i`. */
  function Dispatch(t: seq<string>, i: nat, d: Draft): Draft
    decreases |t| - i
  {
    if i >= |t| then d else Dispatch(t, NextPos(t, i), Step(t, i, d))
  }

  /** `headers[k] = headers[k] || v`: keep a non-empty value, otherwise set `v`. */
  function WithDefault(h: map<string, string>, k: string, v: string): (r: map<string, string>)
    ensures k in r && r[k] == if k in h && h[k] != "" then h[k] else v
    ensures r.Keys == h.Keys + {k}
    ensures forall k' :: k' in h && k' != k ==> r[k'] == h[k']
  {
    h[k := if k in h && h[k] != "" then h[k] else v]
  }

  /** A parsed JSON value as the JavaScript value it is: `null` is no body, a string stays a string. */
  function FromParsed(v: Json): Body {
    match v
    case Null => NoBody
    case Str(s) => TextBody(s)
    case _ => JsonBody(v)
  }

  /** The body and headers after the body-type decision. */
  function ResolveBody(d: Draft, host: Host): (r: (Body, map<string, string>))
    ensures r.0.FormBody? <==> d.bodyType.Multipart?
  {
    if d.bodyType.Multipart? then
      (FormBody(d.formData), d.headers[ContentType := "multipart/form-data"])
    else if d.bodyType.Urlencoded? then
      (if d.body.Some? then TextBody(d.body.value) else NoBody,
       WithDefault(d.headers, ContentType, "application/x-www-form-urlencoded"))
    else if d.body.Some? then
      match host.parseJson(d.body.value)
      case Some(v) => (FromParsed(v), WithDefault(d.headers, ContentType, "application/json"))
      case None => (TextBody(d.body.value), d.headers)
    else (NoBody, d.headers)
  }

  /** The user name: the credential up to the first `:` (`auth.split(':')[0]`). */
  function UserPart(cred: string): string {
    var i := IndexOf(cred, ':');
    if i == -1 then cred else cred[..i]
  }

  /** The password: the text between the first and the second `:` (`auth.split(':')[1] || ''`). */
  function PasswordPart(cred: string): string {
    var i := IndexOf(cred, ':');
    if i == -1 then ""
    else
      var rest := cred[i + 1..];
      var j := IndexOf(rest, ':');
      if j == -1 then rest else rest[..j]
  }

  /** `Basic` followed by the base64 of the UTF-8 bytes of the percent-encoded `user:password`. */
  function BasicAuth(cred: string): string {
    "Basic " + Base64(Utf8(EncodeURIComponent(UserPart(cred)) + ":" + EncodeURIComponent(PasswordPart(cred))))
  }

  /** A non-empty credential gives the `Authorization` header its `Basic` default. */
  function WithAuthorization(h: map<string, string>, auth: Option<string>): map<string, string> {
    if auth.Some? && auth.value != "" then WithDefault(h, Authorization, BasicAuth(auth.value)) else h
  }

  /** The query text `-G` appends for a body that is a string or a JSON value. */
  function QueryText(body: Body, host: Host): string
    requires body.TextBody? || body.JsonBody?
  {
    if body.TextBody? then body.text else host.searchParams(body.value)
  }

  /** Resolution once every token has been dispatched: `t` is the whole token list. */
  function Resolve(t: seq<string>, d: Draft, host: Host): ParseResult {
    if d.url == "" then ParseError(NoUrl)
    else
      var (body, headers) := ResolveBody(d, host);
      var verb := if "-X" !in t && "--request" !in t && body != NoBody && !d.getMode then "POST" else d.httpMethod;
      var fold := d.getMode && body != NoBody && !d.bodyType.Multipart?;
      var url := if fold then d.url + (if '?' in d.url then "&" else "?") + QueryText(body, host) else d.url;
      Parsed(Descriptor(verb, url, WithAuthorization(headers, d.auth), if fold then NoBody else body, d.bodyType))
  }

  /** The result of parsing a command line. */
  function ParseCurlSpec(str: string, host: Host): ParseResult {
    var t := Lex(Trim(str));
    if |t| == 0 then ParseError(EmptyInput)
    else if t[0] != "curl" then ParseError(NotCurl)
    else Resolve(t, Dispatch(t, 1, InitDraft), host)
  }

  /** The parser: tokenize, check the leading `curl`, run the dispatch loop over local state, resolve. */
  method ParseCurl(str: string, host: Host) returns (r: ParseResult)
    ensures r == ParseCurlSpec(str, host)
  {
    var t := Tokenize(Trim(str));
    if |t| == 0 { return ParseError(EmptyInput); }
    if t[0] != "curl" { return ParseError(NotCurl); }

    var d := InitDraft;
    var i := 1;
    while i < |t|
      invariant 1 <= i <= |t| + 1
      invariant Dispatch(t, i, d) == Dispatch(t, 1, InitDraft)
      decreases |t| - i
    {
      i, d := DispatchToken(t, i, d);
    }

    r := ResolveDraft(t, d, host);
  }

  /** One turn of the dispatch loop: the token at `i0` and, for an option, its argument. */
  method DispatchToken(t: seq<string>, i0: nat, d: Draft) returns (i: nat, e: Draft)
    requires i0 < |t|
    ensures i == NextPos(t, i0) && e == Step(t, i0, d)
  {
    var tok := t[i0];
    var flag := Classify(tok);
    if flag.Header? || flag.UserAgent? || flag.Referer? || flag.Cookie? {
      e := HeaderOption(t, i0, d);
      i := i0 + 2;
    } else if TakesArgument(flag) {
      e := ValueOption(t, i0, d);
      i := i0 + 2;
    } else if flag.Get? {
      e := d.(getMode := true);
      i := i0 + 1;
    } else {
      e := d;
      if StartsWith(tok, "http://") || StartsWith(tok, "https://") || (d.url == "" && i0 == |t| - 1) {
        e := e.(url := tok);
      }
      i := i0 + 1;
    }
  }

  /** `-H`, `-A`, `-e` and `-b`: write one header from the argument at `i0 + 1`. */
  method HeaderOption(t: seq<string>, i0: nat, d: Draft) returns (e: Draft)
    requires i0 < |t|
    requires Classify(t[i0]) in {Header, UserAgent, Referer, Cookie}
    ensures e == Step(t, i0, d)
  {
    var flag := Classify(t[i0]);
    var i := i0 + 1;
    var arg := if i < |t| && t[i] != "" then t[i] else "";
    var headers := d.headers;
    if flag == Header {
      var kv := HeaderArgument(arg);
      if kv.Some? {
        headers := headers[kv.value.0 := kv.value.1];
      }
    } else if flag == UserAgent {
      headers := headers["User-Agent" := arg];
    } else if flag == Referer {
      headers := headers["Referer" := arg];
    } else {
      headers := headers["Cookie" := arg];
    }
    e := d.(headers := headers);
  }

  /** `-X`, the data options, `-F` and `-u`: read the argument at `i0 + 1` into the draft. */
  method ValueOption(t: seq<string>, i0: nat, d: Draft) returns (e: Draft)
    requires i0 < |t|
    requires Classify(t[i0]) in {Request, Data, DataUrlencode, Form, User}
    ensures e == Step(t, i0, d)
  {
    var flag := Classify(t[i0]);
    var i := i0 + 1;
    var body := d.body;
    if flag == Request {
      e := d.(httpMethod := AsciiUpper(if i < |t| && t[i] != "" then t[i] else "GET"));
    } else if flag == Data {
      var data := if i < |t| && t[i] != "" then t[i] else "";
      e := d.(body := Some(if body.Some? && body.value != "" then body.value + data else data), bodyType := Raw);
    } else if flag == DataUrlencode {
      var kv := if i < |t| && t[i] != "" then t[i] else "";
      var part := UrlencodeArgument(kv);
      e := d.(body := Some(if body.Some? && body.value != "" then body.value + "&" + part else part), bodyType := Urlencoded);
    } else if flag == Form {
      var kv := if i < |t| && t[i] != "" then t[i] else "";
      var field := FormArgument(kv);
      var formData := d.formData;
      if field.Some? {
        formData := formData + [field.value];
      }
      e := d.(formData := formData, bodyType := Multipart);
    } else {
      e := d.(auth := Some(if i < |t| && t[i] != "" then t[i] else ""));
    }
  }

  /** The argument of `-H`: trimmed name and value around the first `:`. */
  method HeaderArgument(h: string) returns (kv: Option<(string, string)>)
    ensures kv == SplitHeader(h)
  {
    var idx := IndexOf(h, ':');
    if idx > -1 {
      var k := Trim(h[..idx]);
      var v := Trim(h[idx + 1..]);
      kv := Some((k, v));
    } else {
      kv := None;
    }
  }

  /** The argument of `--data-urlencode`, as the piece appended to the body. */
  method UrlencodeArgument(kv: string) returns (part: string)
    ensures part == UrlencodePiece(kv)
  {
    var j := IndexOf(kv, '=');
    if j > -1 {
      part := kv[..j] + "=" + EncodeURIComponent(kv[j + 1..]);
    } else {
      part := EncodeURIComponent(kv);
    }
  }

  /** The argument of `-F`, as the field it pushes, if any. */
  method FormArgument(kv: string) returns (field: Option<FormField>)
    ensures field == FormFieldOf(kv)
  {
    var j := IndexOf(kv, '=');
    if j > -1 {
      var k := kv[..j];
      var v := kv[j + 1..];
      var value := if StartsWith(v, "@") then FileRef(v[1..]) else Plain(v);
      field := Some(FormField(k, value));
    } else {
      field := None;
    }
  }

  /** The resolution steps of the parser, run on the dispatched state. */
  method ResolveDraft(t: seq<string>, d: Draft, host: Host) returns (r: ParseResult)
    ensures r == Resolve(t, d, host)
  {
    var verb, url, headers, body, bodyType, getMode, auth, formData := d.httpMethod, d.url, d.headers, d.body, d.bodyType, d.getMode, d.auth, d.formData;
    if url == "" { return ParseError(NoUrl); }

    var parsedBody := if body.Some? then TextBody(body.value) else NoBody;
    if bodyType == Multipart {
      parsedBody := FormBody(formData);
      headers := headers[ContentType := "multipart/form-data"];
    } else if bodyType == Urlencoded {
      headers := headers[ContentType := if ContentType in headers && headers[ContentType] != "" then headers[ContentType] else "application/x-www-form-urlencoded"];
    } else if body.Some? {
      var parsed := host.parseJson(body.value);
      if parsed.Some? {
        parsedBody := FromParsed(parsed.value);
        headers := headers[ContentType := if ContentType in headers && headers[ContentType] != "" then headers[ContentType] else "application/json"];
      }
    }
    assert (parsedBody, headers) == ResolveBody(d, host);

    if "-X" !in t && "--request" !in t && parsedBody != NoBody && !getMode {
      verb := "POST";
    }

    if getMode && parsedBody != NoBody && bodyType != Multipart {
      var sep := if '?' in url then "&" else "?";
      var q := if parsedBody.TextBody? then parsedBody.text else host.searchParams(parsedBody.value);
      url := url + sep + q;
      parsedBody := NoBody;
    }

    if auth.Some? && auth.value != "" {
      var encodedAuth := EncodeURIComponent(UserPart(auth.value)) + ":" + EncodeURIComponent(PasswordPart(auth.value));
      var b64 := Base64(Utf8(encodedAuth));
      headers := headers[Authorization := if Authorization in headers && headers[Authorization] != "" then headers[Authorization] else "Basic " + b64];
    }

    r := Parsed(Descriptor(verb, url, headers, parsedBody, bodyType));
  }
}
