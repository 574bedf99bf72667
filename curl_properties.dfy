/**
 * What the curl interpreter computes, stated without its loop: each draft field is the value
 * written by the last option that writes it, the data options accumulate in order, and the
 * resolution obeys the Content-Type, method, `-G` and authorization rules.
 */
module CurlProperties {
  import opened Wrappers
  import opened Text
  import opened JsonValues
  import opened Encoding
  import opened Tokenizer
  import opened CurlParser

  /** The positions the dispatch loop visits, starting at `i`; an option's argument is skipped. */
  function Cursors(t: seq<string>, i: nat): (c: set<nat>)
    decreases |t| - i
    ensures forall p :: p in c ==> i <= p < |t|
    ensures i < |t| <==> i in c
  {
    if i >= |t| then {} else {i} + Cursors(t, NextPos(t, i))
  }

  /** An argument the loop consumes is never itself visited as a token. */
  lemma {:induction false} ArgumentNotCursor(t: seq<string>, i: nat, p: nat)
    requires p in Cursors(t, i) && TakesArgument(Classify(t[p]))
    ensures p + 1 !in Cursors(t, i)
    decreases |t| - i
  {
    if p != i {
      ArgumentNotCursor(t, NextPos(t, i), p);
    }
  }

  /** The header the token at `p` writes, if any: `-H` with a `:` in its argument, `-A`, `-e`, `-b`. */
  function HeaderWrite(t: seq<string>, p: nat): Option<(string, string)>
    requires p < |t|
  {
    match Classify(t[p])
    case Header => SplitHeader(ArgOr(t, p + 1, ""))
    case UserAgent => Some(("User-Agent", ArgOr(t, p + 1, "")))
    case Referer => Some(("Referer", ArgOr(t, p + 1, "")))
    case Cookie => Some(("Cookie", ArgOr(t, p + 1, "")))
    case _ => None
  }

  /** Which visited tokens write a given draft field. */
  datatype Selector = UrlToken | MethodFlag | BodyFlag | AuthFlag | GetFlag | HeaderFor(key: string)

  predicate Selects(sel: Selector, t: seq<string>, p: nat)
    requires p < |t|
  {
    match sel
    case UrlToken => Classify(t[p]).NotAFlag? && IsHttp(t[p])
    case MethodFlag => Classify(t[p]).Request?
    case BodyFlag => Classify(t[p]).Data? || Classify(t[p]).DataUrlencode? || Classify(t[p]).Form?
    case AuthFlag => Classify(t[p]).User?
    case GetFlag => Classify(t[p]).Get?
    case HeaderFor(k) => HeaderWrite(t, p).Some? && HeaderWrite(t, p).value.0 == k
  }

  /** The last visited position from `i` on whose token `sel` selects. */
  function LastCursor(t: seq<string>, i: nat, sel: Selector): (r: Option<nat>)
    decreases |t| - i
    ensures r.Some? ==> i <= r.value < |t| && Selects(sel, t, r.value)
  {
    if i >= |t| then None
    else
      var later := LastCursor(t, NextPos(t, i), sel);
      if later.Some? then later else if Selects(sel, t, i) then Some(i) else None
  }

  /** `LastCursor` is the greatest visited position that `sel` selects, or there is none. */
  lemma {:induction false} LastCursorIsLast(t: seq<string>, i: nat, sel: Selector)
    ensures var r := LastCursor(t, i, sel);
      && (r.Some? ==>
            r.value in Cursors(t, i) && Selects(sel, t, r.value) &&
            forall q :: q in Cursors(t, i) && q > r.value ==> !Selects(sel, t, q))
      && (r.None? ==> forall q :: q in Cursors(t, i) ==> !Selects(sel, t, q))
    decreases |t| - i
  {
    if i < |t| {
      LastCursorIsLast(t, NextPos(t, i), sel);
    }
  }

  /** The method is set by the last `-X`, upper-cased, `GET` when its argument is missing or empty. */
  lemma {:induction false} DispatchMethod(t: seq<string>, i: nat, d: Draft)
    ensures Dispatch(t, i, d).httpMethod ==
      match LastCursor(t, i, MethodFlag)
      case Some(p) => MethodArgument(t, p)
      case None => d.httpMethod
    decreases |t| - i
  {
    if i < |t| {
      var j, e := NextPos(t, i), Step(t, i, d);
      assert Dispatch(t, i, d) == Dispatch(t, j, e);
      StepMethod(t, i, d);
      DispatchMethod(t, j, e);
      var later := LastCursor(t, j, MethodFlag);
      assert LastCursor(t, i, MethodFlag) == if later.Some? then later else if Selects(MethodFlag, t, i) then Some(i) else None;
    }
  }

  lemma StepMethod(t: seq<string>, i: nat, d: Draft)
    requires i < |t|
    ensures Step(t, i, d).httpMethod == if Selects(MethodFlag, t, i) then MethodArgument(t, i) else d.httpMethod
  {
  }

  /** The method `-X` at `p` sets: its argument upper-cased, `GET` when missing or empty. */
  function MethodArgument(t: seq<string>, p: nat): string {
    AsciiUpper(ArgOr(t, p + 1, "GET"))
  }

  lemma StepHeaders(t: seq<string>, i: nat, d: Draft)
    requires i < |t|
    ensures Step(t, i, d).headers ==
      match HeaderWrite(t, i)
      case Some(kv) => d.headers[kv.0 := kv.1]
      case None => d.headers
  {
  }

  /** Each header holds the value of the last option writing that name; headers no option writes stay. */
  lemma {:induction false} DispatchHeader(t: seq<string>, i: nat, d: Draft, k: string)
    ensures
      var h := Dispatch(t, i, d).headers;
      match LastCursor(t, i, HeaderFor(k))
      case Some(p) => k in h && h[k] == HeaderWrite(t, p).value.1
      case None => (k in h <==> k in d.headers) && (k in d.headers ==> h[k] == d.headers[k])
    decreases |t| - i
  {
    if i < |t| {
      var j, e := NextPos(t, i), Step(t, i, d);
      assert Dispatch(t, i, d) == Dispatch(t, j, e);
      StepHeaders(t, i, d);
      DispatchHeader(t, j, e, k);
      var later := LastCursor(t, j, HeaderFor(k));
      assert LastCursor(t, i, HeaderFor(k)) == if later.Some? then later else if Selects(HeaderFor(k), t, i) then Some(i) else None;
    }
  }

  function BodyTypeOf(f: Flag): BodyType {
    match f
    case Data => Raw
    case DataUrlencode => Urlencoded
    case Form => Multipart
    case _ => NoType
  }

  /** The body type is that of the last `-d`, `--data-urlencode` or `-F`. */
  lemma {:induction false} DispatchBodyType(t: seq<string>, i: nat, d: Draft)
    ensures Dispatch(t, i, d).bodyType ==
      match LastCursor(t, i, BodyFlag)
      case Some(p) => BodyTypeOf(Classify(t[p]))
      case None => d.bodyType
    decreases |t| - i
  {
    if i < |t| {
      var j, e := NextPos(t, i), Step(t, i, d);
      assert Dispatch(t, i, d) == Dispatch(t, j, e);
      StepBodyType(t, i, d);
      DispatchBodyType(t, j, e);
      var later := LastCursor(t, j, BodyFlag);
      assert LastCursor(t, i, BodyFlag) == if later.Some? then later else if Selects(BodyFlag, t, i) then Some(i) else None;
    }
  }

  lemma StepBodyType(t: seq<string>, i: nat, d: Draft)
    requires i < |t|
    ensures Step(t, i, d).bodyType == if BodyTypeOf(Classify(t[i])).NoType? then d.bodyType else BodyTypeOf(Classify(t[i]))
  {
  }

  lemma StepAuth(t: seq<string>, i: nat, d: Draft)
    requires i < |t|
    ensures Step(t, i, d).auth == if Selects(AuthFlag, t, i) then Some(UserArgument(t, i)) else d.auth
  {
  }

  /** The credential `-u` at `p` sets: its argument, empty when missing. */
  function UserArgument(t: seq<string>, p: nat): string {
    ArgOr(t, p + 1, "")
  }

  /** The credential is the argument of the last `-u`, empty when it is missing. */
  lemma {:induction false} DispatchAuth(t: seq<string>, i: nat, d: Draft)
    ensures Dispatch(t, i, d).auth ==
      match LastCursor(t, i, AuthFlag)
      case Some(p) => Some(UserArgument(t, p))
      case None => d.auth
    decreases |t| - i
  {
    if i < |t| {
      var j, e := NextPos(t, i), Step(t, i, d);
      assert Dispatch(t, i, d) == Dispatch(t, j, e);
      StepAuth(t, i, d);
      DispatchAuth(t, j, e);
      var later := LastCursor(t, j, AuthFlag);
      assert LastCursor(t, i, AuthFlag) == if later.Some? then later else if Selects(AuthFlag, t, i) then Some(i) else None;
    }
  }

  /** `-G` anywhere among the visited tokens turns GET mode on, and nothing turns it off. */
  lemma {:induction false} DispatchGetMode(t: seq<string>, i: nat, d: Draft)
    ensures Dispatch(t, i, d).getMode <==> d.getMode || LastCursor(t, i, GetFlag).Some?
    decreases |t| - i
  {
    if i < |t| {
      var j, e := NextPos(t, i), Step(t, i, d);
      assert Dispatch(t, i, d) == Dispatch(t, j, e);
      StepGetMode(t, i, d);
      DispatchGetMode(t, j, e);
      var later := LastCursor(t, j, GetFlag);
      assert LastCursor(t, i, GetFlag) == if later.Some? then later else if Selects(GetFlag, t, i) then Some(i) else None;
    }
  }

  lemma StepGetMode(t: seq<string>, i: nat, d: Draft)
    requires i < |t|
    ensures Step(t, i, d).getMode == (d.getMode || Classify(t[i]).Get?)
  {
  }

  /** The final token is visited and is not an option. */
  predicate LooseFinal(t: seq<string>, i: nat) {
    |t| > 0 && |t| - 1 in Cursors(t, i) && Classify(t[|t| - 1]).NotAFlag?
  }

  lemma StepUrl(t: seq<string>, i: nat, d: Draft)
    requires i < |t|
    ensures Step(t, i, d).url ==
      if Classify(t[i]).NotAFlag? && (IsHttp(t[i]) || (d.url == "" && i == |t| - 1)) then t[i] else d.url
  {
  }

  /** The URL is the last visited `http://` or `https://` token; without one, a final non-option
      token is taken when no URL was set before. */
  lemma {:induction false} DispatchUrl(t: seq<string>, i: nat, d: Draft)
    ensures Dispatch(t, i, d).url ==
      match LastCursor(t, i, UrlToken)
      case Some(p) => t[p]
      case None => if d.url == "" && LooseFinal(t, i) then t[|t| - 1] else d.url
    decreases |t| - i
  {
    if i < |t| {
      var j, e := NextPos(t, i), Step(t, i, d);
      assert Dispatch(t, i, d) == Dispatch(t, j, e);
      StepUrl(t, i, d);
      DispatchUrl(t, j, e);
      assert Cursors(t, i) == {i} + Cursors(t, j);
      assert LooseFinal(t, i) <==> (i == |t| - 1 && Classify(t[i]).NotAFlag?) || LooseFinal(t, j);
    }
  }

  /** With no `http(s)://` token, a final token consumed as an option's argument never becomes the URL:
      the command has no URL. */
  lemma ConsumedFinalArgumentIsNoUrl(t: seq<string>)
    requires |t| >= 3 && |t| - 2 in Cursors(t, 1) && TakesArgument(Classify(t[|t| - 2]))
    requires LastCursor(t, 1, UrlToken).None?
    ensures Dispatch(t, 1, InitDraft).url == ""
  {
    DispatchUrl(t, 1, InitDraft);
    ArgumentNotCursor(t, 1, |t| - 2);
  }

  /** A piece of body data: `-d` data is appended as is, `--data-urlencode` parts are joined with `&`. */
  datatype Piece = RawPiece(data: string) | EncodedPiece(part: string)

  function PieceAt(t: seq<string>, p: nat): seq<Piece>
    requires p < |t|
  {
    match Classify(t[p])
    case Data => [RawPiece(ArgOr(t, p + 1, ""))]
    case DataUrlencode => [EncodedPiece(UrlencodePiece(ArgOr(t, p + 1, "")))]
    case _ => []
  }

  /** The body pieces of the visited tokens from `i` on, in order. */
  function BodyPieces(t: seq<string>, i: nat): seq<Piece>
    decreases |t| - i
  {
    if i >= |t| then [] else PieceAt(t, i) + BodyPieces(t, NextPos(t, i))
  }

  function AddPiece(body: Option<string>, piece: Piece): string {
    match piece
    case RawPiece(x) => AppendRaw(body, x)
    case EncodedPiece(x) => AppendEncoded(body, x)
  }

  /** The body after adding the pieces one after another. */
  function Accumulate(body: Option<string>, pieces: seq<Piece>): Option<string>
    decreases |pieces|
  {
    if pieces == [] then body else Accumulate(Some(AddPiece(body, pieces[0])), pieces[1..])
  }

  lemma {:induction false} AccumulateAppend(body: Option<string>, a: seq<Piece>, b: seq<Piece>)
    ensures Accumulate(body, a + b) == Accumulate(Accumulate(body, a), b)
    decreases |a|
  {
    if a != [] {
      assert (a + b)[1..] == a[1..] + b;
      AccumulateAppend(Some(AddPiece(body, a[0])), a[1..], b);
    } else {
      assert a + b == b;
    }
  }

  /** The body is the initial body with every data piece of the visited tokens added in order. */
  lemma {:induction false} DispatchBody(t: seq<string>, i: nat, d: Draft)
    ensures Dispatch(t, i, d).body == Accumulate(d.body, BodyPieces(t, i))
    decreases |t| - i
  {
    if i < |t| {
      var j, e := NextPos(t, i), Step(t, i, d);
      assert Dispatch(t, i, d) == Dispatch(t, j, e);
      StepBody(t, i, d);
      DispatchBody(t, j, e);
      assert BodyPieces(t, i) == PieceAt(t, i) + BodyPieces(t, j);
      AccumulateAppend(d.body, PieceAt(t, i), BodyPieces(t, j));
    }
  }

  lemma StepBody(t: seq<string>, i: nat, d: Draft)
    requires i < |t|
    ensures Step(t, i, d).body == Accumulate(d.body, PieceAt(t, i))
  {
    var pieces := PieceAt(t, i);
    if pieces != [] {
      assert pieces[1..] == [];
    }
  }

  /** The field the token at `p` pushes: one for `-F` with a `=`, none otherwise. */
  function FormPiece(t: seq<string>, p: nat): seq<FormField>
    requires p < |t|
  {
    if Classify(t[p]).Form? then FieldList(FormFieldOf(ArgOr(t, p + 1, ""))) else []
  }

  /** The form fields of the visited `-F` tokens from `i` on, in order. */
  function FormFieldsFrom(t: seq<string>, i: nat): seq<FormField>
    decreases |t| - i
  {
    if i >= |t| then [] else FormPiece(t, i) + FormFieldsFrom(t, NextPos(t, i))
  }

  lemma StepForm(t: seq<string>, i: nat, d: Draft)
    requires i < |t|
    ensures Step(t, i, d).formData == d.formData + FormPiece(t, i)
  {
    if !Classify(t[i]).Form? {
      assert d.formData + [] == d.formData;
    }
  }

  /** Every `-F` with a `=` pushes its field, in order, and nothing removes one. */
  lemma {:induction false} DispatchForm(t: seq<string>, i: nat, d: Draft)
    ensures Dispatch(t, i, d).formData == d.formData + FormFieldsFrom(t, i)
    decreases |t| - i
  {
    if i < |t| {
      var j, e := NextPos(t, i), Step(t, i, d);
      assert Dispatch(t, i, d) == Dispatch(t, j, e);
      StepForm(t, i, d);
      DispatchForm(t, j, e);
      assert FormFieldsFrom(t, i) == FormPiece(t, i) + FormFieldsFrom(t, j);
      AppendAssoc(d.formData, FormPiece(t, i), FormFieldsFrom(t, j));
    } else {
      assert d.formData + [] == d.formData;
    }
  }

  /** The data of `-d` pieces, concatenated. */
  function RawData(pieces: seq<Piece>): string
    requires forall k :: 0 <= k < |pieces| ==> pieces[k].RawPiece?
  {
    if pieces == [] then "" else pieces[0].data + RawData(pieces[1..])
  }

  /** Repeated `-d` options concatenate their data with no separator. */
  lemma {:induction false} AccumulateRaw(s: string, pieces: seq<Piece>)
    requires forall k :: 0 <= k < |pieces| ==> pieces[k].RawPiece?
    ensures Accumulate(Some(s), pieces) == Some(s + RawData(pieces))
    decreases |pieces|
  {
    if pieces != [] {
      assert AddPiece(Some(s), pieces[0]) == s + pieces[0].data by {
        if s == "" { assert s + pieces[0].data == pieces[0].data; }
      }
      AccumulateRaw(s + pieces[0].data, pieces[1..]);
      assert s + pieces[0].data + RawData(pieces[1..]) == s + (pieces[0].data + RawData(pieces[1..]));
    } else {
      assert s + RawData(pieces) == s;
    }
  }

  /** `&` followed by each part, concatenated. */
  function AmpJoined(pieces: seq<Piece>): string
    requires forall k :: 0 <= k < |pieces| ==> pieces[k].EncodedPiece?
  {
    if pieces == [] then "" else "&" + pieces[0].part + AmpJoined(pieces[1..])
  }

  /** After a non-empty body, each `--data-urlencode` part is joined on with an `&`. */
  lemma {:induction false} AccumulateEncoded(s: string, pieces: seq<Piece>)
    requires s != ""
    requires forall k :: 0 <= k < |pieces| ==> pieces[k].EncodedPiece?
    ensures Accumulate(Some(s), pieces) == Some(s + AmpJoined(pieces))
    decreases |pieces|
  {
    if pieces != [] {
      AccumulateEncoded(s + "&" + pieces[0].part, pieces[1..]);
      assert s + "&" + pieces[0].part + AmpJoined(pieces[1..]) == s + ("&" + pieces[0].part + AmpJoined(pieces[1..]));
    } else {
      assert s + AmpJoined(pieces) == s;
    }
  }

  /** A non-empty argument always gives a non-empty `--data-urlencode` part, so no `&` is lost. */
  lemma UrlencodePieceNonEmpty(kv: string)
    requires kv != ""
    ensures UrlencodePiece(kv) != ""
  {
  }

  /** `--data-urlencode k=v` keeps `k=` and percent-encodes `v`; the encoded value decodes back to
      the UTF-8 bytes of `v`. */
  lemma UrlencodePieceSplit(k: string, v: string)
    requires '=' !in k
    ensures UrlencodePiece(k + "=" + v) == k + "=" + EncodeURIComponent(v)
    ensures PercentDecode(EncodeURIComponent(v)) == Utf8(v)
  {
    var kv := k + "=" + v;
    assert kv[|k|] == '=';
    assert IndexOf(kv, '=') == |k| by {
      forall m | 0 <= m < |k| ensures kv[m] != '=' { assert kv[m] == k[m]; }
    }
    assert kv[..|k|] == k;
    assert kv[|k| + 1..] == v;
    DecodeEncodeURIComponent(v);
  }

  /** `-H 'name: value'` splits at the first `:` and trims both sides. */
  lemma SplitHeaderAt(a: string, b: string)
    requires ':' !in a
    ensures SplitHeader(a + ":" + b) == Some((Trim(a), Trim(b)))
  {
    var h := a + ":" + b;
    assert h[|a|] == ':';
    assert IndexOf(h, ':') == |a| by {
      forall m | 0 <= m < |a| ensures h[m] != ':' { assert h[m] == a[m]; }
    }
    assert h[..|a|] == a;
    assert h[|a| + 1..] == b;
  }

  /** An `-H` argument without a `:` writes no header. */
  lemma SplitHeaderNone(h: string)
    requires ':' !in h
    ensures SplitHeader(h) == None
  {
  }

  /** `-F k=@name` is a file reference and `-F k=v` a plain value; the key stops at the first `=`. */
  lemma FormFieldAt(k: string, v: string)
    requires '=' !in k
    ensures FormFieldOf(k + "=" + v) ==
      Some(FormField(k, if |v| > 0 && v[0] == '@' then FileRef(v[1..]) else Plain(v)))
  {
    var kv := k + "=" + v;
    assert kv[|k|] == '=';
    assert IndexOf(kv, '=') == |k| by {
      forall m | 0 <= m < |k| ensures kv[m] != '=' { assert kv[m] == k[m]; }
    }
    assert kv[..|k|] == k;
    assert kv[|k| + 1..] == v;
  }

  /** Whether the resolved body is present (not `null`): always for `-F`; otherwise when there is
      data, unless it is raw data that parses as the JSON literal `null`. */
  predicate BodyPresent(d: Draft, host: Host) {
    d.bodyType.Multipart? ||
    (d.body.Some? && (d.bodyType.Urlencoded? || host.parseJson(d.body.value) != Some(Null)))
  }

  lemma ResolvedBodyPresent(d: Draft, host: Host)
    ensures ResolveBody(d, host).0 != NoBody <==> BodyPresent(d, host)
  {
  }

  /** The request is rejected exactly when no URL was found. */
  lemma ResolveNeedsUrl(t: seq<string>, d: Draft, host: Host)
    ensures Resolve(t, d, host).ParseError? <==> d.url == ""
    ensures Resolve(t, d, host).ParseError? ==> Resolve(t, d, host).message == NoUrl
    ensures Resolve(t, d, host).Parsed? ==> Resolve(t, d, host).request.bodyType == d.bodyType
  {
  }

  /** The method becomes POST exactly when no `-X`/`--request` token occurs anywhere, a body is
      present and GET mode is off; otherwise it is the dispatched method. */
  lemma ResolveMethod(t: seq<string>, d: Draft, host: Host)
    requires d.url != ""
    ensures Resolve(t, d, host).request.httpMethod ==
      if "-X" !in t && "--request" !in t && BodyPresent(d, host) && !d.getMode then "POST" else d.httpMethod
  {
    ResolvedBodyPresent(d, host);
  }

  /** With `-F`, the body is the form fields and the Content-Type is forced to multipart/form-data,
      even under `-G`. */
  lemma ResolveMultipart(t: seq<string>, d: Draft, host: Host)
    requires d.url != "" && d.bodyType.Multipart?
    ensures var r := Resolve(t, d, host).request;
      r.body == FormBody(d.formData) && r.url == d.url &&
      ContentType in r.headers && r.headers[ContentType] == "multipart/form-data"
  {
  }

  /** The separator `-G` puts before the query. */
  function QuerySeparator(url: string): string {
    if '?' in url then "&" else "?"
  }

  /** `--data-urlencode`: the body is the accumulated string and the Content-Type defaults to
      application/x-www-form-urlencoded; `-G` moves the string to the query instead. */
  lemma ResolveUrlencoded(t: seq<string>, d: Draft, host: Host, s: string)
    requires d.url != "" && d.bodyType.Urlencoded? && d.body == Some(s)
    ensures var r := Resolve(t, d, host).request;
      ContentType in r.headers &&
      r.headers[ContentType] == (if ContentType in d.headers && d.headers[ContentType] != "" then d.headers[ContentType] else "application/x-www-form-urlencoded") &&
      (d.getMode ==> r.body == NoBody && r.url == d.url + QuerySeparator(d.url) + s) &&
      (!d.getMode ==> r.body == TextBody(s) && r.url == d.url)
  {
  }

  /** Raw data that parses as JSON becomes the parsed value and the Content-Type defaults to
      application/json; under `-G` a parsed string is appended verbatim and any other value through
      the query-string serializer. */
  lemma ResolveJson(t: seq<string>, d: Draft, host: Host, s: string, v: Json)
    requires d.url != "" && !d.bodyType.Multipart? && !d.bodyType.Urlencoded?
    requires d.body == Some(s) && host.parseJson(s) == Some(v)
    ensures var r := Resolve(t, d, host).request;
      ContentType in r.headers &&
      r.headers[ContentType] == (if ContentType in d.headers && d.headers[ContentType] != "" then d.headers[ContentType] else "application/json") &&
      (!d.getMode ==> r.body == FromParsed(v) && r.url == d.url) &&
      (d.getMode ==> r.body == NoBody) &&
      (d.getMode && v.Str? ==> r.url == d.url + QuerySeparator(d.url) + v.s) &&
      (d.getMode && !v.Str? && !v.Null? ==> r.url == d.url + QuerySeparator(d.url) + host.searchParams(v)) &&
      (v.Null? ==> r.url == d.url)
  {
  }

  /** Raw data that is not JSON stays a string and the Content-Type is left as it was. */
  lemma ResolveNonJson(t: seq<string>, d: Draft, host: Host, s: string)
    requires d.url != "" && !d.bodyType.Multipart? && !d.bodyType.Urlencoded?
    requires d.body == Some(s) && host.parseJson(s) == None
    ensures var r := Resolve(t, d, host).request;
      (ContentType in r.headers <==> ContentType in d.headers) &&
      (ContentType in d.headers ==> r.headers[ContentType] == d.headers[ContentType]) &&
      (d.getMode ==> r.body == NoBody && r.url == d.url + QuerySeparator(d.url) + s) &&
      (!d.getMode ==> r.body == TextBody(s) && r.url == d.url)
  {
  }

  /** Without data or form fields there is no body, no Content-Type is added and the URL stays. */
  lemma ResolveNoBody(t: seq<string>, d: Draft, host: Host)
    requires d.url != "" && !d.bodyType.Multipart? && !d.bodyType.Urlencoded? && d.body == None
    ensures var r := Resolve(t, d, host).request;
      r.body == NoBody && r.url == d.url &&
      (ContentType in r.headers <==> ContentType in d.headers) &&
      (ContentType in d.headers ==> r.headers[ContentType] == d.headers[ContentType])
  {
  }

  /** The body decision writes no header other than Content-Type. */
  lemma ResolveBodyHeaders(d: Draft, host: Host, k: string)
    requires k != ContentType
    ensures var h := ResolveBody(d, host).1;
      (k in h <==> k in d.headers) && (k in d.headers ==> h[k] == d.headers[k])
  {
  }

  /** A non-empty credential sets `Authorization: Basic …` unless a non-empty one was given with `-H`;
      an absent or empty credential leaves the header alone. */
  lemma ResolveAuth(t: seq<string>, d: Draft, host: Host)
    requires d.url != ""
    ensures var r := Resolve(t, d, host).request;
      if d.auth.Some? && d.auth.value != "" then
        Authorization in r.headers &&
        r.headers[Authorization] == if Authorization in d.headers && d.headers[Authorization] != "" then d.headers[Authorization] else BasicAuth(d.auth.value)
      else
        (Authorization in r.headers <==> Authorization in d.headers) &&
        (Authorization in d.headers ==> r.headers[Authorization] == d.headers[Authorization])
  {
    ResolveBodyHeaders(d, host, Authorization);
  }

  /** Resolution touches no header other than Content-Type and Authorization. */
  lemma ResolveOtherHeaders(t: seq<string>, d: Draft, host: Host, k: string)
    requires d.url != "" && k != ContentType && k != Authorization
    ensures var r := Resolve(t, d, host).request;
      (k in r.headers <==> k in d.headers) && (k in d.headers ==> r.headers[k] == d.headers[k])
  {
    ResolveBodyHeaders(d, host, k);
  }

  /** `user:password` splits at the first `:`. */
  lemma CredentialParts(u: string, p: string)
    requires ':' !in u && ':' !in p
    ensures UserPart(u + ":" + p) == u && PasswordPart(u + ":" + p) == p
  {
    var c := u + ":" + p;
    assert c[|u|] == ':';
    assert IndexOf(c, ':') == |u| by {
      forall m | 0 <= m < |u| ensures c[m] != ':' { assert c[m] == u[m]; }
    }
    assert c[..|u|] == u;
    assert c[|u| + 1..] == p;
  }

  /** A password containing `:` is cut at its first `:`, as `split(':')[1]` does. */
  lemma CredentialExtraColon(u: string, p: string, x: string)
    requires ':' !in u && ':' !in p
    ensures PasswordPart(u + ":" + p + ":" + x) == p
  {
    var c := u + ":" + p + ":" + x;
    assert c[|u|] == ':';
    assert IndexOf(c, ':') == |u| by {
      forall m | 0 <= m < |u| ensures c[m] != ':' { assert c[m] == u[m]; }
    }
    var rest := c[|u| + 1..];
    assert rest == p + ":" + x;
    assert rest[|p|] == ':';
    assert IndexOf(rest, ':') == |p| by {
      forall m | 0 <= m < |p| ensures rest[m] != ':' { assert rest[m] == p[m]; }
    }
    assert rest[..|p|] == p;
  }

  /** A credential without `:` is a user name with an empty password. */
  lemma CredentialNoColon(u: string)
    requires ':' !in u
    ensures UserPart(u) == u && PasswordPart(u) == ""
  {
  }

  /** The Basic header decodes back to the UTF-8 bytes of the percent-encoded `user:password`. */
  lemma BasicAuthDecodes(cred: string)
    ensures StartsWith(BasicAuth(cred), "Basic ")
    ensures Base64Decode(BasicAuth(cred)[6..]) ==
      Some(Utf8(EncodeURIComponent(UserPart(cred)) + ":" + EncodeURIComponent(PasswordPart(cred))))
  {
    var bytes := Utf8(EncodeURIComponent(UserPart(cred)) + ":" + EncodeURIComponent(PasswordPart(cred)));
    assert BasicAuth(cred)[6..] == Base64(bytes);
    Base64RoundTrip(bytes);
  }

  /** A command is rejected exactly when it has no tokens, does not start with `curl`, or names no URL. */
  lemma ParseCurlErrors(str: string, host: Host)
    ensures var t := Lex(Trim(str)); var r := ParseCurlSpec(str, host);
      (r.ParseError? <==> t == [] || t[0] != "curl" || Dispatch(t, 1, InitDraft).url == "") &&
      (t == [] ==> r == ParseError(EmptyInput)) &&
      (t != [] && t[0] != "curl" ==> r == ParseError(NotCurl)) &&
      (t != [] && t[0] == "curl" && Dispatch(t, 1, InitDraft).url == "" ==> r == ParseError(NoUrl))
  {
  }

  /** Blank input is the empty-input error. */
  lemma BlankInputIsEmpty(str: string, host: Host)
    requires AllSpace(str)
    ensures ParseCurlSpec(str, host) == ParseError(EmptyInput)
  {
    assert Trim(str) == [];
  }
}
