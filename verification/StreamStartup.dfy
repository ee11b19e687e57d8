/**
 Inspection of the first Responses or Codex event of a stream, before anything is sent downstream: is it
 decided yet, and is it a failure?
 */
module StreamStartup {
  import opened Wrappers
  import opened Text
  import opened ErrorStatus
  import opened RetryLoop
  import Json

  const MAX_STARTUP_BYTES := 16 * 1024

  /** The error part of an event: the raw JSON of `code`, "" when absent, and two decoded strings. */
  datatype Details = Details(code: Bytes, kind: string, message: string)

  /** The decoded fields of an event. */
  datatype Event = Event(kind: string, error: Option<Details>, responseError: Option<Details>, outputs: nat)

  /**
   Decoders outside this plugin: the event fields of a complete JSON object (None on a type mismatch), the value of
   a JSON string, and the status pattern of error texts.
   */
  datatype Decoder = Decoder(event: Bytes -> Option<Event>, unquote: Bytes -> string, pattern: StatusPattern)

  function NormalizeSourceFormat(value: string): string {
    var key := NormalizeKey(value);
    if key in {"response", "responses", "openai-responses"} then "openai-response" else key
  }

  predicate Inspected(format: string) {
    NormalizeSourceFormat(format) in {"openai-response", "codex"}
  }

  predicate FrameEnded(payload: Bytes) {
    HasSuffix(payload, "\n\n") || HasSuffix(payload, "\r\n\r\n")
  }

  // ---- the status of a failure event --------------------------------------

  function DigitsValue(s: string): int
    requires forall i :: 0 <= i < |s| ==> '0' <= s[i] <= '9'
  {
    if s == [] then 0 else 10 * DigitsValue(s[..|s| - 1]) + (s[|s| - 1] as int - '0' as int)
  }

  predicate AllDigits(s: string) {
    s != [] && forall i :: 0 <= i < |s| ==> '0' <= s[i] <= '9'
  }

  /** strconv.Atoi with its error ignored: a signed decimal number, else 0. */
  function Atoi(s: string): int {
    if AllDigits(s) then DigitsValue(s)
    else if s != [] && s[0] in "+-" && AllDigits(s[1..]) then (if s[0] == '-' then -1 else 1) * DigitsValue(s[1..])
    else 0
  }

  function CodeText(d: Decoder, details: Details): string {
    if details.code != [] && details.code[0] == '"' then d.unquote(details.code) else details.code
  }

  /** An explicit status in the code, else one implied by the error's code or type, else one named in its message. */
  function FailureStatusOf(d: Decoder, details: Details): (status: int)
    ensures status == 0 || 100 <= status <= 599
  {
    var code := CodeText(d, details);
    if 400 <= Atoi(code) <= 599 then Atoi(code)
    else if NormalizeKey(code) == "server_is_overloaded" || NormalizeKey(details.kind) == "service_unavailable_error"
    then 503
    else if NormalizeKey(code) == "rate_limit_exceeded" || NormalizeKey(details.kind) == "rate_limit_error" then 429
    else if NormalizeKey(details.kind) == "invalid_request_error" then 400
    else if NormalizeKey(details.kind) == "authentication_error" then 401
    else StatusFromError(d.pattern, Plain(details.message))
  }

  lemma {:induction false} DigitsRead(n: nat)
    ensures AllDigits(Digits(n)) && DigitsValue(Digits(n)) == n
  {
    if n >= 10 {
      var front, last := Digits(n / 10), Digits(n % 10);
      DigitsRead(n / 10);
      assert Digits(n) == front + last && (front + last)[..|front|] == front;
    } else {
      assert Digits(n)[..0] == [];
    }
  }

  /** An error status written as a number in the code is the status, whatever the error's type and message say. */
  lemma ExplicitCodeWins(d: Decoder, details: Details, n: int)
    requires 400 <= n <= 599 && CodeText(d, details) == Decimal(n)
    ensures FailureStatusOf(d, details) == n
  {
    DigitsRead(n);
  }

  /** The status that an error's code or type stands for. */
  predicate Implies(code: string, kind: string, status: int) {
    match status
    case 503 => NormalizeKey(code) == "server_is_overloaded" || NormalizeKey(kind) == "service_unavailable_error"
    case 429 => NormalizeKey(code) == "rate_limit_exceeded" || NormalizeKey(kind) == "rate_limit_error"
    case 400 => NormalizeKey(kind) == "invalid_request_error"
    case 401 => NormalizeKey(kind) == "authentication_error"
    case _ => false
  }

  /**
   Without an error status in the code, the status is the greatest one that the code or the type stands for; if they
   stand for none, it is the one named in the message.
   */
  lemma ImpliedStatus(d: Decoder, details: Details)
    requires !(400 <= Atoi(CodeText(d, details)) <= 599)
    ensures var code, kind, status := CodeText(d, details), details.kind, FailureStatusOf(d, details);
      if exists s :: Implies(code, kind, s) then
        Implies(code, kind, status) && forall s :: Implies(code, kind, s) ==> s <= status
      else status == TextStatus(d.pattern, details.message)
  {
    var code, kind := CodeText(d, details), details.kind;
    assert (exists s :: Implies(code, kind, s))
      <==> Implies(code, kind, 503) || Implies(code, kind, 429) || Implies(code, kind, 400) || Implies(code, kind, 401);
  }

  /** The failure an object reports, if it is an error event that carried no output. */
  function Classify(d: Decoder, obj: Bytes): Option<Startup> {
    var event := d.event(obj);
    if event.None? then None
    else
      var details :=
        if event.value.kind == "response.failed" then
          if event.value.outputs != 0 then None else event.value.responseError
        else if event.value.kind == "error" then event.value.error
        else None;
      if details.None? then None
      else Some(Startup(FailureStatusOf(d, details.value),
                        CodeText(d, details.value) + " " + details.value.kind + " " + details.value.message))
  }

  // ---- the inspector ------------------------------------------------------

  datatype Inspection = Inspection(pending: bool, failure: Option<Startup>)

  const DECIDED := Inspection(false, None)

  /** Where the event's data starts, or a verdict reached before any data. */
  datatype Head = Body(data: Bytes) | Undecided(pending: bool)

  function Newline(data: Bytes): (i: int)
    ensures -1 <= i < |data|
    ensures i >= 0 ==> data[i] == '\n'
  {
    if data == [] then -1
    else if data[0] == '\n' then 0
    else if Newline(data[1..]) < 0 then -1
    else 1 + Newline(data[1..])
  }

  lemma {:induction false} TrimShorter(s: Bytes)
    ensures |TrimSpace(s)| <= |s|
  {
    var lead := TrimLeftShape(s);
    var tail := TrimRightShape(TrimLeft(s));
  }

  function ReadHead(data: Bytes, ended: bool): Head
    decreases |data|
  {
    if data == [] || data[0] == '{' then Body(data)
    else if HasPrefix(data, "data:") then Body(TrimSpace(data[5..]))
    else if HasPrefix("data:", data) || HasPrefix("event:", data) then Undecided(true)
    else if !HasPrefix(data, "event:") then Undecided(false)
    else
      var i := Newline(data);
      if i < 0 || TrimSpace(data[i + 1..]) == [] then Undecided(!ended)
      else
        TrimShorter(data[i + 1..]);
        ReadHead(TrimSpace(data[i + 1..]), ended)
  }

  function InspectData(d: Decoder, data: Bytes, blank: bool, ended: bool): Inspection {
    if data == [] then Inspection(!blank && !ended, None)
    else if data[0] != '{' then DECIDED
    else
      match Json.ReadObject(data)
      case Incomplete => Inspection(!ended, None)
      case Malformed => DECIDED
      case Object(end) => Inspection(false, if end <= |data| then Classify(d, data[..end]) else None)
  }

  function Inspect(d: Decoder, format: string, payload: Bytes): Inspection {
    if !Inspected(format) || |payload| >= MAX_STARTUP_BYTES then DECIDED
    else
      match ReadHead(TrimSpace(payload), FrameEnded(payload))
      case Undecided(pending) => Inspection(pending, None)
      case Body(data) => InspectData(d, data, TrimSpace(payload) == [], FrameEnded(payload))
  }

  /** The inspector's loop, which shortens `data` field by field. */
  method InspectStreamStartup(d: Decoder, format: string, payload: Bytes)
    returns (pending: bool, failure: Option<Startup>)
    ensures Inspection(pending, failure) == Inspect(d, format, payload)
  {
    if !Inspected(format) || |payload| >= MAX_STARTUP_BYTES {
      return false, None;
    }
    var data := TrimSpace(payload);
    var ended := FrameEnded(payload);
    while data != [] && data[0] != '{'
      invariant ReadHead(data, ended) == ReadHead(TrimSpace(payload), ended)
      decreases |data|
    {
      if HasPrefix(data, "data:") {
        data := TrimSpace(data[5..]);
        break;
      }
      if HasPrefix("data:", data) || HasPrefix("event:", data) {
        return true, None;
      }
      if !HasPrefix(data, "event:") {
        return false, None;
      }
      var i := Newline(data);
      if i < 0 || TrimSpace(data[i + 1..]) == [] {
        return !ended, None;
      }
      TrimShorter(data[i + 1..]);
      data := TrimSpace(data[i + 1..]);
    }
    assert ReadHead(TrimSpace(payload), ended) == Body(data);
    pending, failure := InspectBody(d, data, TrimSpace(payload) == [], ended);
  }

  /** The rest of the inspector, once the event's data is found. */
  method InspectBody(d: Decoder, data: Bytes, blank: bool, ended: bool)
    returns (pending: bool, failure: Option<Startup>)
    ensures Inspection(pending, failure) == InspectData(d, data, blank, ended)
  {
    if data == [] {
      return !blank && !ended, None;
    }
    if data[0] != '{' {
      return false, None;
    }
    match Json.ReadObject(data) {
      case Incomplete => return !ended, None;
      case Malformed => return false, None;
      case Object(end) =>
        Json.UsedBounds(Json.START, data, 0);
        return false, Classify(d, data[..end]);
    }
  }

  // ---- the reader ---------------------------------------------------------

  /** One answer of host.model.stream.read. */
  datatype Read = ReadError(err: Err) | Chunk(payload: Bytes, done: bool, error: string)

  function PayloadOf(r: Read): Bytes {
    if r.Chunk? then r.payload else []
  }

  /** All the bytes that some reads carry. */
  function AllPayloads(script: seq<Read>): Bytes {
    if script == [] then [] else PayloadOf(script[0]) + AllPayloads(script[1..])
  }

  datatype Gathered = ReadFailed(err: Err) | Gathered(payload: Bytes)

  /** What one read leads to: the result, or None to read on. */
  function AfterRead(d: Decoder, format: string, payload: Bytes, next: Read): Option<Gathered> {
    match next
    case ReadError(err) => Some(ReadFailed(err))
    case Chunk(more, done, error) =>
      if error != "" then Some(ReadFailed(Plain(error)))
      else if (more != [] && !Inspect(d, format, payload + more).pending) || done then Some(Gathered(payload + more))
      else None
  }

  function Reader(d: Decoder, format: string): (Bytes, Read) -> Option<Gathered> {
    (payload, next) => AfterRead(d, format, payload, next)
  }

  /** The startup payload and the number of reads it took; after the listed reads the host reports an empty end. */
  function Gather(after: (Bytes, Read) -> Option<Gathered>, script: seq<Read>, payload: Bytes,
                  used: nat): (r: (Gathered, nat))
    ensures used <= r.1 <= used + |script|
    decreases |script|
  {
    if script == [] then (Gathered(payload), used)
    else if after(payload, script[0]).Some? then (after(payload, script[0]).value, used + 1)
    else Gather(after, script[1..], payload + PayloadOf(script[0]), used + 1)
  }

  method TakeRead(d: Decoder, format: string, payload: Bytes, next: Read)
    returns (result: Option<Gathered>, longer: Bytes)
    ensures result == AfterRead(d, format, payload, next)
    ensures result.None? ==> longer == payload + next.payload
  {
    longer := payload;
    match next {
      case ReadError(err) => return Some(ReadFailed(err)), payload;
      case Chunk(more, done, error) =>
        if error != "" {
          return Some(ReadFailed(Plain(error))), payload;
        }
        if more != [] {
          longer := payload + more;
          var pending, _ := InspectStreamStartup(d, format, longer);
          if !pending {
            return Some(Gathered(longer)), longer;
          }
        }
        assert longer == payload + more;
        result := if done then Some(Gathered(longer)) else None;
    }
  }

  method ReadStreamStartupPayload(d: Decoder, format: string, script: seq<Read>) returns (result: Gathered, used: nat)
    ensures (result, used) == Gather(Reader(d, format), script, [], 0)
    ensures used <= |script|
  {
    var payload: Bytes := [];
    used := 0;
    while used < |script|
      invariant used <= |script|
      invariant Gather(Reader(d, format), script, [], 0) == Gather(Reader(d, format), script[used..], payload, used)
    {
      assert script[used..][1..] == script[used + 1..];
      var ended, longer := TakeRead(d, format, payload, script[used]);
      used := used + 1;
      if ended.Some? {
        return ended.value, used;
      }
      payload := longer;
    }
    result := Gathered(payload);
  }
}
