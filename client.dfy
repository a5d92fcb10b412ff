/**
 * The response side of the authenticated client: extracting a human-readable message
 * from an error body, classifying a response by its status, and the request builder's
 * value semantics.
 */
module Client {
  import opened Wrappers
  import opened Errors
  import opened Http

  /** A JSON document as the JSON library's value model sees it; object members keep their textual order. */
  datatype Json =
    | JNull
    | JBool(b: bool)
    | JNumber(n: int)
    | JString(s: string)
    | JArray(items: seq<Json>)
    | JObject(members: seq<(string, Json)>)

  /** Text-to-JSON parsing, left abstract: None when the text is not JSON. */
  type Parser = string -> Option<Json>

  /** The error-body record: every field is optional; `error_message` holds JSON inside a string. */
  datatype Message = Message(
    message: Option<string>,
    faultstring: Option<string>,
    title: Option<string>,
    errorMessage: Option<string>)

  // ---------------------------------------------------------------------------
  // Typed decoding of a Message (the derived deserializer)
  // ---------------------------------------------------------------------------

  /** How many members of an object carry the given key. */
  function Occurrences(members: seq<(string, Json)>, key: string): nat {
    if members == [] then 0
    else (if members[0].0 == key then 1 else 0) + Occurrences(members[1..], key)
  }

  /** The value of the first member carrying the given key. */
  function Lookup(members: seq<(string, Json)>, key: string): Option<Json> {
    if members == [] then None
    else if members[0].0 == key then Some(members[0].1)
    else Lookup(members[1..], key)
  }

  /** An `Option<String>` field: null is None, a string is Some, anything else is a type error (None). */
  function OptionalText(j: Json): Option<Option<string>> {
    match j
    case JNull => Some(None)
    case JString(s) => Some(Some(s))
    case _ => None
  }

  /** One named field of the record: absent means None, a repeated field is an error. */
  function DecodeField(members: seq<(string, Json)>, key: string): Option<Option<string>> {
    if Occurrences(members, key) > 1 then None
    else match Lookup(members, key)
      case None => Some(None)
      case Some(v) => OptionalText(v)
  }

  /**
   * The derived deserializer of Message: an object whose four known fields each decode
   * (other members are ignored), or an array of exactly four optional strings taken by position.
   */
  function DecodeMessage(j: Json): (r: Option<Message>)
    ensures r.Some? ==> j.JObject? || (j.JArray? && |j.items| == 4)
    ensures j.JObject? ==>
      (r.Some? <==>
        && DecodeField(j.members, "message").Some?
        && DecodeField(j.members, "faultstring").Some?
        && DecodeField(j.members, "title").Some?
        && DecodeField(j.members, "error_message").Some?)
    ensures j.JObject? && r.Some? ==>
      && r.value.message == DecodeField(j.members, "message").value
      && r.value.faultstring == DecodeField(j.members, "faultstring").value
      && r.value.title == DecodeField(j.members, "title").value
      && r.value.errorMessage == DecodeField(j.members, "error_message").value
    ensures j.JArray? && |j.items| == 4 ==>
      (r.Some? <==> forall i :: 0 <= i < 4 ==> OptionalText(j.items[i]).Some?)
    ensures j.JArray? && r.Some? ==>
      && r.value.message == OptionalText(j.items[0]).value
      && r.value.faultstring == OptionalText(j.items[1]).value
      && r.value.title == OptionalText(j.items[2]).value
      && r.value.errorMessage == OptionalText(j.items[3]).value
  {
    match j
    case JObject(ms) =>
      var message :- DecodeField(ms, "message");
      var faultstring :- DecodeField(ms, "faultstring");
      var title :- DecodeField(ms, "title");
      var errorMessage :- DecodeField(ms, "error_message");
      Some(Message(message, faultstring, title, errorMessage))
    case JArray(items) =>
      if |items| != 4 then None
      else
        var message :- OptionalText(items[0]);
        var faultstring :- OptionalText(items[1]);
        var title :- OptionalText(items[2]);
        var errorMessage :- OptionalText(items[3]);
        Some(Message(message, faultstring, title, errorMessage))
    case _ => None
  }

  /** The four field names the record knows. */
  predicate KnownField(key: string) {
    key == "message" || key == "faultstring" || key == "title" || key == "error_message"
  }

  /** Counting and looking up a key over two runs of members. */
  lemma {:induction false} MembersAppend(a: seq<(string, Json)>, b: seq<(string, Json)>, key: string)
    ensures Occurrences(a + b, key) == Occurrences(a, key) + Occurrences(b, key)
    ensures Lookup(a + b, key) == if Lookup(a, key).Some? then Lookup(a, key) else Lookup(b, key)
  {
    if a != [] {
      assert (a + b)[1..] == a[1..] + b;
      MembersAppend(a[1..], b, key);
    } else {
      assert a + b == b;
    }
  }

  /** A member carrying the key is counted. */
  lemma {:induction false} OccurrencesPositive(members: seq<(string, Json)>, key: string, i: nat)
    requires i < |members| && members[i].0 == key
    ensures Occurrences(members, key) >= 1
  {
    if i > 0 {
      OccurrencesPositive(members[1..], key, i - 1);
    }
  }

  /** Unknown fields are ignored: a member under any other key, inserted anywhere, changes nothing. */
  lemma DecodeMessageIgnoresUnknown(before: seq<(string, Json)>, after: seq<(string, Json)>, key: string, value: Json)
    requires !KnownField(key)
    ensures DecodeMessage(JObject(before + [(key, value)] + after)) == DecodeMessage(JObject(before + after))
  {
    var extra: seq<(string, Json)> := [(key, value)];
    assert before + extra + after == before + (extra + after);
    forall k | KnownField(k)
      ensures DecodeField(before + extra + after, k) == DecodeField(before + after, k)
    {
      assert extra[1..] == [];
      MembersAppend(extra, after, k);
      MembersAppend(before, extra + after, k);
      MembersAppend(before, after, k);
    }
  }

  /** A known field given more than once makes the whole record fail to decode. */
  lemma DecodeMessageRejectsRepeated(members: seq<(string, Json)>, key: string)
    requires KnownField(key) && Occurrences(members, key) > 1
    ensures DecodeMessage(JObject(members)).None?
  {
  }

  /** A field given exactly once is read from its own value, wherever it stands. */
  lemma {:induction false} DecodeFieldOnce(members: seq<(string, Json)>, key: string, i: nat)
    requires i < |members| && members[i].0 == key && Occurrences(members, key) == 1
    ensures Lookup(members, key) == Some(members[i].1)
    ensures DecodeField(members, key) == OptionalText(members[i].1)
  {
    if members[0].0 == key {
      if i > 0 {
        OccurrencesPositive(members[1..], key, i - 1);
      }
    } else {
      DecodeFieldOnce(members[1..], key, i - 1);
    }
  }

  /** A field not given at all decodes as absent. */
  lemma {:induction false} DecodeFieldAbsent(members: seq<(string, Json)>, key: string)
    requires forall i :: 0 <= i < |members| ==> members[i].0 != key
    ensures DecodeField(members, key) == Some(None)
  {
    if members != [] {
      assert forall i :: 0 <= i < |members| - 1 ==> members[1..][i] == members[i + 1];
      DecodeFieldAbsent(members[1..], key);
    }
  }

  // ---------------------------------------------------------------------------
  // Message::convert and From<Message> for Option<String>
  // ---------------------------------------------------------------------------

  /** The fields that carry a message directly, in the order `convert` tries them. */
  function DirectFields(m: Message): seq<Option<string>> {
    [m.message, m.faultstring, m.title]
  }

  /** The first present entry of a list of optional texts. */
  function FirstPresent(fields: seq<Option<string>>): Option<string> {
    if fields == [] then None
    else if fields[0].Some? then fields[0]
    else FirstPresent(fields[1..])
  }

  /** Scanning the field list agrees with the `or` chain `convert` writes. */
  lemma FirstPresentOfDirectFields(m: Message)
    ensures FirstPresent(DirectFields(m)) == m.message.Or(m.faultstring).Or(m.title)
  {
    var fs := DirectFields(m);
    assert fs[1..] == [m.faultstring, m.title];
    assert fs[1..][1..] == [m.title];
    assert fs[1..][1..][1..] == [];
    assert FirstPresent(fs[1..][1..]) == m.title.Or(None);
    assert FirstPresent(fs[1..]) == m.faultstring.Or(m.title);
  }

  /** The message encoded as JSON text in the legacy `error_message` field, if it decodes. */
  function InnerMessage(m: Message, parse: Parser): (r: Option<Message>)
    ensures r.Some? <==>
      m.errorMessage.Some? && parse(m.errorMessage.value).Some? && DecodeMessage(parse(m.errorMessage.value).value).Some?
    ensures r.Some? ==> r == DecodeMessage(parse(m.errorMessage.value).value)
  {
    match m.errorMessage
    case None => None
    case Some(json) =>
      match parse(json)
      case None => None
      case Some(j) => DecodeMessage(j)
  }

  /**
   * `Message::convert`: the first present of `message`, `faultstring`, `title`; failing those and
   * only when `recursive`, the same choice made (non-recursively) on the legacy inner message.
   */
  function Convert(m: Message, recursive: bool, parse: Parser): (r: Option<string>)
    decreases if recursive then 1 else 0
    ensures FirstPresent(DirectFields(m)).Some? ==> r == FirstPresent(DirectFields(m))
    ensures FirstPresent(DirectFields(m)).None? && !recursive ==> r.None?
    ensures FirstPresent(DirectFields(m)).None? && recursive ==>
      r == (if InnerMessage(m, parse).Some? then FirstPresent(DirectFields(InnerMessage(m, parse).value)) else None)
  {
    FirstPresentOfDirectFields(m);
    var direct := m.message.Or(m.faultstring).Or(m.title);
    if direct.Some? then
      direct
    else if recursive then
      match m.errorMessage
      case Some(json) =>
        (match parse(json)
         case None => None
         case Some(j) =>
           match DecodeMessage(j)
           case None => None
           case Some(msg) => Convert(msg, false, parse))
      case None => None
    else
      None
  }

  /** `From<Message> for Option<String>`: conversion with one level of legacy decoding. */
  function IntoText(m: Message, parse: Parser): (r: Option<string>)
    ensures FirstPresent(DirectFields(m)).Some? ==> r == FirstPresent(DirectFields(m))
    ensures FirstPresent(DirectFields(m)).None? ==>
      r == (if InnerMessage(m, parse).Some? then FirstPresent(DirectFields(InnerMessage(m, parse).value)) else None)
    ensures r.None? <==>
      && FirstPresent(DirectFields(m)).None?
      && (InnerMessage(m, parse).None? || FirstPresent(DirectFields(InnerMessage(m, parse).value)).None?)
  {
    Convert(m, true, parse)
  }

  // ---------------------------------------------------------------------------
  // ErrorResponse and extract_message
  // ---------------------------------------------------------------------------

  /** The untagged error body: a map from any key to a message, else a single message. */
  datatype ErrorResponse = MapBody(entries: map<string, Message>) | MessageBody(msg: Message)

  /**
   * A JSON object read as a map from key to Message: every value must decode, and a key that
   * appears again overwrites the earlier entry.
   */
  function DecodeMessageMap(members: seq<(string, Json)>): (r: Option<map<string, Message>>)
    decreases |members|
    ensures r.Some? <==> forall i :: 0 <= i < |members| ==> DecodeMessage(members[i].1).Some?
  {
    if members == [] then Some(map[])
    else
      var prefix :- DecodeMessageMap(members[..|members| - 1]);
      var last := members[|members| - 1];
      var msg :- DecodeMessage(last.1);
      Some(prefix[last.0 := msg])
  }

  /** The untagged enum tries the map shape first, then the single-message shape. */
  function DecodeErrorResponse(j: Json): (r: Option<ErrorResponse>)
    ensures r.Some? <==> (j.JObject? && DecodeMessageMap(j.members).Some?) || DecodeMessage(j).Some?
    ensures j.JObject? && DecodeMessageMap(j.members).Some? ==> r == Some(MapBody(DecodeMessageMap(j.members).value))
    ensures r.Some? && r.value.MessageBody? ==>
      && DecodeMessage(j) == Some(r.value.msg)
      && (j.JObject? ==> DecodeMessageMap(j.members).None?)
    ensures !(j.JObject? && DecodeMessageMap(j.members).Some?) && DecodeMessage(j).Some? ==>
      r == Some(MessageBody(DecodeMessage(j).value))
  {
    if j.JObject? && DecodeMessageMap(j.members).Some? then
      Some(MapBody(DecodeMessageMap(j.members).value))
    else
      match DecodeMessage(j)
      case None => None
      case Some(msg) => Some(MessageBody(msg))
  }

  /** The first entry a hash map yields when iterated: an arbitrary one, since the order is unspecified. */
  ghost function FirstEntry(entries: map<string, Message>): (r: Option<Message>)
    ensures r.Some? <==> entries != map[]
    ensures r.Some? ==> r.value in entries.Values
  {
    if entries.Keys == {} then None
    else
      var k :| k in entries.Keys;
      Some(entries[k])
  }

  /** `extract_message`: the message found in an error body, or the body text itself. */
  ghost function ExtractMessage(text: string, parse: Parser): (r: string)
    ensures parse(text).None? || DecodeErrorResponse(parse(text).value).None? ==> r == text
    ensures parse(text).Some? && DecodeErrorResponse(parse(text).value) == Some(MapBody(map[])) ==> r == text
    ensures parse(text).Some? && DecodeErrorResponse(parse(text).value).Some?
            && DecodeErrorResponse(parse(text).value).value.MessageBody? ==>
      r == IntoText(DecodeErrorResponse(parse(text).value).value.msg, parse).GetOr(text)
    ensures parse(text).Some? && DecodeErrorResponse(parse(text).value).Some?
            && DecodeErrorResponse(parse(text).value).value.MapBody?
            && DecodeErrorResponse(parse(text).value).value.entries != map[] ==>
      exists k :: k in DecodeErrorResponse(parse(text).value).value.entries
        && r == IntoText(DecodeErrorResponse(parse(text).value).value.entries[k], parse).GetOr(text)
  {
    var extracted :=
      match parse(text)
      case None => None
      case Some(j) =>
        match DecodeErrorResponse(j)
        case None => None
        case Some(MapBody(entries)) =>
          (match FirstEntry(entries)
           case None => None
           case Some(v) => IntoText(v, parse))
        case Some(MessageBody(msg)) => IntoText(msg, parse);
    extracted.GetOr(text)
  }

  // ---------------------------------------------------------------------------
  // check
  // ---------------------------------------------------------------------------

  /** A received response: its status, its URL and the result of reading its body as text. */
  datatype Response = Response(status: StatusCode, url: Url, text: Result<string, Error>)

  /**
   * `check`: a 4xx or 5xx status becomes an error carrying the status and the extracted message;
   * any other response passes through unchanged.
   */
  ghost function Check(resp: Response, parse: Parser): (r: Result<Response, Error>)
    ensures r.Success? <==> !(400 <= resp.status <= 599)
    ensures r.Success? ==> r.value == resp
    ensures r.Failure? && resp.text.Success? ==>
      r.error == Error(FromStatus(resp.status as int), ExtractMessage(resp.text.value, parse), Some(resp.status as int))
    ensures r.Failure? && resp.text.Failure? ==> r.error == resp.text.error
  {
    if IsClientError(resp.status) || IsServerError(resp.status) then
      match resp.text
      case Failure(e) => Failure(e)
      case Success(body) =>
        Failure(Error(FromStatus(resp.status as int), ExtractMessage(body, parse), Some(resp.status as int)))
    else
      Success(resp)
  }

  // ---------------------------------------------------------------------------
  // RequestBuilder: every configuration call returns a new value
  // ---------------------------------------------------------------------------

  /** The authenticated client a builder belongs to; clones share the same authentication. */
  datatype AuthenticatedClient = AuthenticatedClient(handle: nat)

  datatype RequestBuilder = RequestBuilder(inner: HttpRequest, client: AuthenticatedClient)

  /** The names a list of headers sets. */
  function HeaderNames(headers: seq<(string, string)>): set<string> {
    set i | 0 <= i < |headers| :: headers[i].0
  }

  /** Headers whose name is not among `names`, in their order. */
  function WithoutNames(headers: seq<(string, string)>, names: set<string>): (r: seq<(string, string)>)
    ensures forall i :: 0 <= i < |r| ==> r[i].0 !in names && r[i] in headers
    ensures forall i :: 0 <= i < |headers| && headers[i].0 !in names ==> headers[i] in r
  {
    if headers == [] then []
    else
      assert forall i :: 1 <= i < |headers| ==> headers[i] == headers[1..][i - 1];
      (if headers[0].0 in names then [] else [headers[0]]) + WithoutNames(headers[1..], names)
  }

  /** `body`: the body is replaced; nothing else changes. */
  function WithBody(b: RequestBuilder, body: Body): (r: RequestBuilder)
    ensures r.client == b.client && r.inner.body == Some(body)
    ensures r.inner.(body := b.inner.body) == b.inner
  {
    b.(inner := b.inner.(body := Some(body)))
  }

  /** `header`: the header is appended to those already set; nothing else changes. */
  function WithHeader(b: RequestBuilder, name: string, value: string): (r: RequestBuilder)
    ensures r.client == b.client && r.inner.(headers := b.inner.headers) == b.inner
    ensures |r.inner.headers| == |b.inner.headers| + 1
    ensures r.inner.headers[..|b.inner.headers|] == b.inner.headers
    ensures r.inner.headers[|b.inner.headers|] == (name, value)
  {
    b.(inner := b.inner.(headers := b.inner.headers + [(name, value)]))
  }

  /**
   * `headers`: every header of the new set is present afterwards; an old header survives exactly
   * when the new set does not name it; nothing else changes.
   */
  function WithHeaders(b: RequestBuilder, headers: seq<(string, string)>): (r: RequestBuilder)
    ensures r.client == b.client && r.inner.(headers := b.inner.headers) == b.inner
    ensures forall i :: 0 <= i < |headers| ==> headers[i] in r.inner.headers
    ensures forall i :: 0 <= i < |b.inner.headers| && b.inner.headers[i].0 !in HeaderNames(headers) ==>
      b.inner.headers[i] in r.inner.headers
    ensures forall i :: 0 <= i < |r.inner.headers| ==>
      r.inner.headers[i] in headers || (r.inner.headers[i] in b.inner.headers && r.inner.headers[i].0 !in HeaderNames(headers))
  {
    var kept := WithoutNames(b.inner.headers, HeaderNames(headers));
    assert forall i :: 0 <= i < |headers| ==> (kept + headers)[|kept| + i] == headers[i];
    b.(inner := b.inner.(headers := kept + headers))
  }

  /** Whether a header of the given name is set. */
  predicate HasHeader(headers: seq<(string, string)>, name: string) {
    exists i :: 0 <= i < |headers| && headers[i].0 == name
  }

  /**
   * `json`: the serialized value becomes the body, and a JSON content type is added unless one
   * is already set; afterwards a content type is always set.
   */
  function WithJson(b: RequestBuilder, serialized: seq<byte>): (r: RequestBuilder)
    ensures r.client == b.client && r.inner.(headers := b.inner.headers, body := b.inner.body) == b.inner
    ensures r.inner.body == Some(Bytes(serialized))
    ensures HasHeader(b.inner.headers, "content-type") ==> r.inner.headers == b.inner.headers
    ensures !HasHeader(b.inner.headers, "content-type") ==>
      r.inner.headers == b.inner.headers + [("content-type", "application/json")]
    ensures HasHeader(r.inner.headers, "content-type")
  {
    var headers := if HasHeader(b.inner.headers, "content-type") then b.inner.headers
                   else b.inner.headers + [("content-type", "application/json")];
    assert !HasHeader(b.inner.headers, "content-type") ==> headers[|b.inner.headers|].0 == "content-type";
    b.(inner := b.inner.(headers := headers, body := Some(Bytes(serialized))))
  }

  /** `query`: the pairs are appended to the query already set; nothing else changes. */
  function WithQuery(b: RequestBuilder, pairs: seq<(string, string)>): (r: RequestBuilder)
    ensures r.client == b.client && r.inner.(query := b.inner.query) == b.inner
    ensures |r.inner.query| == |b.inner.query| + |pairs|
    ensures r.inner.query[..|b.inner.query|] == b.inner.query && r.inner.query[|b.inner.query|..] == pairs
  {
    b.(inner := b.inner.(query := b.inner.query + pairs))
  }

  /** `timeout`: the timeout is replaced; nothing else changes. */
  function WithTimeout(b: RequestBuilder, timeout: nat): (r: RequestBuilder)
    ensures r.client == b.client && r.inner.timeout == Some(timeout)
    ensures r.inner.(timeout := b.inner.timeout) == b.inner
  {
    b.(inner := b.inner.(timeout := Some(timeout)))
  }

  /** `try_clone`: a copy sharing the client, unless the body is a one-shot stream. */
  function TryClone(b: RequestBuilder): (r: Option<RequestBuilder>)
    ensures r.Some? <==> !(b.inner.body.Some? && b.inner.body.value.Stream?)
    ensures r.Some? ==> r.value.inner == b.inner && r.value.client == b.client
  {
    if b.inner.body.Some? && b.inner.body.value.Stream? then None else Some(b)
  }

  /** One configuration call on a builder. */
  datatype BuilderCall =
    | CallBody(body: Body)
    | CallHeader(name: string, value: string)
    | CallHeaders(headers: seq<(string, string)>)
    | CallJson(serialized: seq<byte>)
    | CallQuery(pairs: seq<(string, string)>)
    | CallTimeout(timeout: nat)

  function Apply(b: RequestBuilder, call: BuilderCall): RequestBuilder {
    match call
    case CallBody(body) => WithBody(b, body)
    case CallHeader(name, value) => WithHeader(b, name, value)
    case CallHeaders(headers) => WithHeaders(b, headers)
    case CallJson(serialized) => WithJson(b, serialized)
    case CallQuery(pairs) => WithQuery(b, pairs)
    case CallTimeout(timeout) => WithTimeout(b, timeout)
  }

  /** A chain of configuration calls, applied left to right. */
  function ApplyAll(b: RequestBuilder, calls: seq<BuilderCall>): RequestBuilder
    decreases |calls|
  {
    if calls == [] then b else ApplyAll(Apply(b, calls[0]), calls[1..])
  }

  /** The query pairs a chain of calls adds, in order. */
  function QueryOf(calls: seq<BuilderCall>): seq<(string, string)>
    decreases |calls|
  {
    if calls == [] then []
    else (if calls[0].CallQuery? then calls[0].pairs else []) + QueryOf(calls[1..])
  }

  /**
   * However a builder is configured, it keeps its client, method and URL, and its query is the
   * original query followed by every query call's pairs in order.
   */
  lemma {:induction false} BuilderCallsKeepTarget(b: RequestBuilder, calls: seq<BuilderCall>)
    decreases |calls|
    ensures ApplyAll(b, calls).client == b.client
    ensures ApplyAll(b, calls).inner.verb == b.inner.verb
    ensures ApplyAll(b, calls).inner.url == b.inner.url
    ensures ApplyAll(b, calls).inner.query == b.inner.query + QueryOf(calls)
  {
    if calls != [] {
      var next := Apply(b, calls[0]);
      ApplyKeepsTarget(b, calls[0]);
      BuilderCallsKeepTarget(next, calls[1..]);
    }
  }

  /** One configuration call keeps client, method and URL, and only a query call extends the query. */
  lemma ApplyKeepsTarget(b: RequestBuilder, call: BuilderCall)
    ensures Apply(b, call).client == b.client
    ensures Apply(b, call).inner.verb == b.inner.verb && Apply(b, call).inner.url == b.inner.url
    ensures Apply(b, call).inner.query == b.inner.query + (if call.CallQuery? then call.pairs else [])
  {
    match call
    case CallQuery(pairs) =>
      var r := WithQuery(b, pairs);
      assert r.inner.query == r.inner.query[..|b.inner.query|] + r.inner.query[|b.inner.query|..];
    case _ =>
      assert b.inner.query + [] == b.inner.query;
  }

  /** Configuring a clone leaves the original's configuration as it was, and the clone starts equal to it. */
  lemma CloneIsIndependent(b: RequestBuilder, calls: seq<BuilderCall>)
    requires TryClone(b).Some?
    ensures ApplyAll(TryClone(b).value, calls).inner.query == b.inner.query + QueryOf(calls)
    ensures ApplyAll(TryClone(b).value, calls).client == b.client
  {
    BuilderCallsKeepTarget(TryClone(b).value, calls);
  }

  // ---------------------------------------------------------------------------
  // Properties of the message choice
  // ---------------------------------------------------------------------------

  /** The first present entry wins: an entry preceded only by absent ones is the result. */
  lemma {:induction false} FirstPresentIsFirst(fields: seq<Option<string>>, i: nat)
    requires i < |fields| && fields[i].Some?
    requires forall j :: 0 <= j < i ==> fields[j].None?
    ensures FirstPresent(fields) == fields[i]
  {
    if i > 0 {
      FirstPresentIsFirst(fields[1..], i - 1);
    }
  }

  /** Nothing is chosen exactly when every entry is absent. */
  lemma {:induction false} FirstPresentNone(fields: seq<Option<string>>)
    ensures FirstPresent(fields).None? <==> forall j :: 0 <= j < |fields| ==> fields[j].None?
  {
    if fields != [] {
      FirstPresentNone(fields[1..]);
      assert forall j :: 1 <= j < |fields| ==> fields[j] == fields[1..][j - 1];
    }
  }

  /** `message` beats `faultstring`, which beats `title`, whether or not the conversion is recursive. */
  lemma ConvertPriority(m: Message, recursive: bool, parse: Parser)
    ensures m.message.Some? ==> Convert(m, recursive, parse) == m.message
    ensures m.message.None? && m.faultstring.Some? ==> Convert(m, recursive, parse) == m.faultstring
    ensures m.message.None? && m.faultstring.None? && m.title.Some? ==> Convert(m, recursive, parse) == m.title
  {
    var fs := DirectFields(m);
    if m.message.Some? {
      FirstPresentIsFirst(fs, 0);
    } else if m.faultstring.Some? {
      FirstPresentIsFirst(fs, 1);
    } else if m.title.Some? {
      FirstPresentIsFirst(fs, 2);
    }
  }

  /** Without recursion the legacy field is never consulted: no direct field means no message, whatever the parser. */
  lemma ConvertNonRecursiveIgnoresLegacy(m: Message, parse1: Parser, parse2: Parser)
    ensures Convert(m, false, parse1) == Convert(m, false, parse2)
    ensures m.message.None? && m.faultstring.None? && m.title.None? ==> Convert(m, false, parse1).None?
  {
    FirstPresentOfDirectFields(m);
  }

  /**
   * Legacy decoding goes one level deep: when the inner message has no direct field the result is None,
   * even if the inner message has an `error_message` of its own.
   */
  lemma ConvertStopsAfterOneLevel(m: Message, parse: Parser, inner: Message)
    requires m.message.None? && m.faultstring.None? && m.title.None?
    requires InnerMessage(m, parse) == Some(inner)
    requires inner.message.None? && inner.faultstring.None? && inner.title.None?
    ensures Convert(m, true, parse).None?
  {
    FirstPresentOfDirectFields(m);
    FirstPresentOfDirectFields(inner);
  }

  /** With no direct field, an absent or undecodable `error_message` yields None. */
  lemma ConvertLegacyMissingOrInvalid(m: Message, parse: Parser)
    requires m.message.None? && m.faultstring.None? && m.title.None?
    requires m.errorMessage.None? || parse(m.errorMessage.value).None? || DecodeMessage(parse(m.errorMessage.value).value).None?
    ensures Convert(m, true, parse).None?
  {
    FirstPresentOfDirectFields(m);
  }

  // ---------------------------------------------------------------------------
  // Properties of the body shapes
  // ---------------------------------------------------------------------------

  /** One member whose value is not a Message makes the whole map shape fail. */
  lemma DecodeMessageMapRejects(members: seq<(string, Json)>, i: nat)
    requires i < |members| && DecodeMessage(members[i].1).None?
    ensures DecodeMessageMap(members).None?
  {
  }

  /** The keys of the decoded map are exactly the keys of the object. */
  lemma {:induction false} DecodeMessageMapKeys(members: seq<(string, Json)>)
    requires DecodeMessageMap(members).Some?
    ensures DecodeMessageMap(members).value.Keys == set i | 0 <= i < |members| :: members[i].0
  {
    if members != [] {
      var prefix := members[..|members| - 1];
      DecodeMessageMapKeys(prefix);
      assert forall i :: 0 <= i < |prefix| ==> prefix[i] == members[i];
      assert (set i | 0 <= i < |members| :: members[i].0)
          == (set i | 0 <= i < |prefix| :: prefix[i].0) + {members[|members| - 1].0};
    }
  }

  /** An object whose members all share one key decodes to a one-entry map holding the last value. */
  lemma {:induction false} DecodeMessageMapSingleKey(members: seq<(string, Json)>, k: string)
    requires |members| > 0
    requires forall i :: 0 <= i < |members| ==> members[i].0 == k
    requires DecodeMessageMap(members).Some?
    ensures DecodeMessage(members[|members| - 1].1).Some?
    ensures DecodeMessageMap(members).value == map[k := DecodeMessage(members[|members| - 1].1).value]
  {
    var prefix := members[..|members| - 1];
    if |prefix| > 0 {
      DecodeMessageMapSingleKey(prefix, k);
    }
  }

  /** A string value is never a Message, so a flat message object is never read as a map. */
  lemma FlatMessageIsNotMap(members: seq<(string, Json)>, i: nat)
    requires i < |members| && members[i].1.JString?
    ensures DecodeMessageMap(members).None?
    ensures DecodeErrorResponse(JObject(members)).Some? ==> DecodeErrorResponse(JObject(members)).value.MessageBody?
  {
    DecodeMessageMapRejects(members, i);
  }

  // ---------------------------------------------------------------------------
  // Properties of extract_message
  // ---------------------------------------------------------------------------

  /** A body that is not JSON, or fits neither shape, is returned unchanged. */
  lemma ExtractFallsBackToText(text: string, parse: Parser)
    requires parse(text).None? || DecodeErrorResponse(parse(text).value).None?
    ensures ExtractMessage(text, parse) == text
  {
  }

  /** An empty object is an empty map: no entry, so the text is returned unchanged. */
  lemma ExtractEmptyObject(text: string, parse: Parser)
    requires parse(text) == Some(JObject([]))
    ensures ExtractMessage(text, parse) == text
  {
    assert DecodeMessageMap([]) == Some(map[]);
  }

  /** A body whose members all share one key yields that key's (last) message, converted with legacy decoding. */
  lemma ExtractSingleKeyMap(text: string, parse: Parser, members: seq<(string, Json)>, k: string, msg: Message)
    requires parse(text) == Some(JObject(members))
    requires |members| > 0 && forall i :: 0 <= i < |members| ==> members[i].0 == k
    requires DecodeMessageMap(members).Some?
    requires DecodeMessage(members[|members| - 1].1) == Some(msg)
    ensures ExtractMessage(text, parse) == IntoText(msg, parse).GetOr(text)
  {
    DecodeMessageMapSingleKey(members, k);
    assert map[k := msg].Keys == {k};
  }

  /** A flat object with a string-valued member is read as a single message. */
  lemma ExtractFlatMessage(text: string, parse: Parser, members: seq<(string, Json)>, i: nat, msg: Message)
    requires parse(text) == Some(JObject(members))
    requires i < |members| && members[i].1.JString?
    requires DecodeMessage(JObject(members)) == Some(msg)
    ensures ExtractMessage(text, parse) == IntoText(msg, parse).GetOr(text)
  {
    FlatMessageIsNotMap(members, i);
  }

  /** A body in the record's array form is not a map, so it is read as a single message by position. */
  lemma ExtractArrayMessage(text: string, parse: Parser)
    requires parse(text) == Some(JArray([JNull, JString("I failed"), JNull, JNull]))
    ensures ExtractMessage(text, parse) == "I failed"
  {
    var msg := Message(None, Some("I failed"), None, None);
    assert DecodeMessage(JArray([JNull, JString("I failed"), JNull, JNull])) == Some(msg);
    ConvertPriority(msg, true, parse);
  }

  // The crate's own unit tests, with the JSON parser's reading of each literal as a premise.

  lemma TestPlain(parse: Parser)
    requires parse("<html><body>I failed</body></html>").None?
    ensures ExtractMessage("<html><body>I failed</body></html>", parse) == "<html><body>I failed</body></html>"
  {
  }

  lemma TestSimpleMessage(parse: Parser)
    requires parse("{\"message\": \"I failed\"}") == Some(JObject([("message", JString("I failed"))]))
    ensures ExtractMessage("{\"message\": \"I failed\"}", parse) == "I failed"
  {
    var members := [("message", JString("I failed"))];
    var msg := Message(Some("I failed"), None, None, None);
    assert DecodeMessage(JObject(members)) == Some(msg);
    ExtractFlatMessage("{\"message\": \"I failed\"}", parse, members, 0, msg);
    ConvertPriority(msg, true, parse);
  }

  lemma TestNestedMessage(parse: Parser)
    requires parse("{\"SomethingFailed\": {\"message\": \"I failed\"}}")
      == Some(JObject([("SomethingFailed", JObject([("message", JString("I failed"))]))]))
    ensures ExtractMessage("{\"SomethingFailed\": {\"message\": \"I failed\"}}", parse) == "I failed"
  {
    var members := [("SomethingFailed", JObject([("message", JString("I failed"))]))];
    var msg := Message(Some("I failed"), None, None, None);
    assert DecodeMessage(members[0].1) == Some(msg);
    assert DecodeMessageMap(members[..0]) == Some(map[]);
    ExtractSingleKeyMap("{\"SomethingFailed\": {\"message\": \"I failed\"}}", parse, members, "SomethingFailed", msg);
    ConvertPriority(msg, true, parse);
  }

  /** An object under `error_message` is not a string, so the body is read as a map keyed by `error_message`. */
  lemma TestIronicMessage(parse: Parser)
    requires parse("{\"error_message\": {\"faultstring\": \"I failed\"}}")
      == Some(JObject([("error_message", JObject([("faultstring", JString("I failed"))]))]))
    ensures ExtractMessage("{\"error_message\": {\"faultstring\": \"I failed\"}}", parse) == "I failed"
  {
    var members := [("error_message", JObject([("faultstring", JString("I failed"))]))];
    var msg := Message(None, Some("I failed"), None, None);
    assert DecodeMessage(members[0].1) == Some(msg);
    assert DecodeMessageMap(members[..0]) == Some(map[]);
    ExtractSingleKeyMap("{\"error_message\": {\"faultstring\": \"I failed\"}}", parse, members, "error_message", msg);
    ConvertPriority(msg, true, parse);
  }

  /** The legacy shape: the message is JSON text inside the `error_message` string, decoded once. */
  lemma TestIronicLegacy(parse: Parser)
    requires parse("{\"error_message\": \"{\\\"faultstring\\\": \\\"I failed\\\"}\"}")
      == Some(JObject([("error_message", JString("{\"faultstring\": \"I failed\"}"))]))
    requires parse("{\"faultstring\": \"I failed\"}") == Some(JObject([("faultstring", JString("I failed"))]))
    ensures ExtractMessage("{\"error_message\": \"{\\\"faultstring\\\": \\\"I failed\\\"}\"}", parse) == "I failed"
  {
    var members := [("error_message", JString("{\"faultstring\": \"I failed\"}"))];
    var outer := Message(None, None, None, Some("{\"faultstring\": \"I failed\"}"));
    var inner := Message(None, Some("I failed"), None, None);
    assert DecodeMessage(JObject(members)) == Some(outer);
    assert DecodeMessage(JObject([("faultstring", JString("I failed"))])) == Some(inner);
    ExtractFlatMessage("{\"error_message\": \"{\\\"faultstring\\\": \\\"I failed\\\"}\"}", parse, members, 0, outer);
    FirstPresentOfDirectFields(outer);
    FirstPresentOfDirectFields(inner);
  }
}
