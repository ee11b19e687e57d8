/** The inspector's verdict in terms of the decoded event, and the payloads it does not wait for. */
module EventVerdict {
  import opened Wrappers
  import opened Text
  import opened RetryLoop
  import opened StreamStartup
  import opened Chunking
  import Json

  // ---- which formats ------------------------------------------------------

  /** The formats that are inspected, by every name they go by, whatever the case and the space around it. */
  lemma InspectedFormats(format: string)
    ensures Inspected(format)
       <==> NormalizeKey(format) in {"response", "responses", "openai-response", "openai-responses", "codex"}
  {
  }

  // ---- which events -------------------------------------------------------

  /** The event reports a failure: an error event with an error, or a failed response with an error and no output. */
  predicate ReportsFailure(event: Option<Event>) {
    && event.Some?
    && (|| (event.value.kind == "error" && event.value.error.Some?)
        || (event.value.kind == "response.failed" && event.value.outputs == 0 && event.value.responseError.Some?))
  }

  /** The error part that belongs to the kind of the event. */
  function Reported(event: Event): Details
    requires ReportsFailure(Some(event))
  {
    if event.kind == "error" then event.error.value else event.responseError.value
  }

  /** The code as text: a JSON string is unquoted, anything else is taken as it is written. */
  predicate IsCode(d: Decoder, details: Details, code: string) {
    code == if details.code != [] && details.code[0] == '"' then d.unquote(details.code) else details.code
  }

  /** The failure has the status and the text of these details. */
  ghost predicate Describes(d: Decoder, f: Startup, details: Details) {
    && f.status == FailureStatusOf(d, details)
    && exists code :: IsCode(d, details, code) && f.details == code + " " + details.kind + " " + details.message
  }

  /**
   Any payload below the limit that contains the whole event: a failure is reported if and only if the decoded event
   reports one, and it has the status, the code, the type and the message of the error part that belongs to the
   event's kind. A failed response that carried output, and every other kind of event, is no failure.
   */
  lemma FailureExactly(d: Decoder, format: string, w: FirstEvent, rest: Bytes)
    requires WellFormed(w) && Inspected(format) && |Wire(w) + rest| < 16_384
    ensures var verdict, event := Inspect(d, format, Wire(w) + rest), d.event(w.obj);
      && !verdict.pending
      && (verdict.failure.Some? <==> ReportsFailure(event))
      && (verdict.failure.Some? ==> Describes(d, verdict.failure.value, Reported(event.value)))
  {
    WholeEvent(d, format, w, rest);
    ClassifyExactly(d, w.obj);
  }

  lemma ClassifyExactly(d: Decoder, obj: Bytes)
    ensures var failure, event := Classify(d, obj), d.event(obj);
      && (failure.Some? <==> ReportsFailure(event))
      && (failure.Some? ==> Describes(d, failure.value, Reported(event.value)))
  {
    var event := d.event(obj);
    if ReportsFailure(event) {
      assert IsCode(d, Reported(event.value), CodeText(d, Reported(event.value)));
    }
  }

  // ---- payloads that are decided at once ----------------------------------

  /** The visible text can still become a data or an event field, or already is one. */
  predicate FieldLike(text: Bytes) {
    text <= "data:" || "data:" <= text || text <= "event:" || "event:" <= text
  }

  /** Nothing to inspect: another format, too many bytes, only white space, a comment or another protocol. */
  predicate NoEvent(format: string, payload: Bytes) {
    || !Inspected(format)
    || |payload| >= 16_384
    || AllSpace(payload)
    || (TrimSpace(payload) != [] && TrimSpace(payload)[0] != '{' && !FieldLike(TrimSpace(payload)))
  }

  /** Such a payload is decided without a failure. */
  lemma NoEventDecided(d: Decoder, format: string, payload: Bytes)
    requires NoEvent(format, payload)
    ensures Inspect(d, format, payload) == Inspection(false, None)
  {
    if AllSpace(payload) { TrimAllSpace(payload); }
  }

  /** So is data that is not an object, or starts like one and cannot become one. */
  lemma OtherDataDecided(d: Decoder, format: string, x: Bytes)
    requires TrimSpace(x) != []
    requires TrimSpace(x)[0] != '{' || Json.ReadObject(TrimSpace(x)) == Json.Malformed
    ensures Inspect(d, format, "data:" + x) == Inspection(false, None)
  {
    DataBody(x, FrameEnded("data:" + x));
  }

  // ---- payloads that are waited for ---------------------------------------

  /** The last line of the payload is blank, with either kind of line end. */
  predicate BlankLineAtEnd(p: Bytes) {
    var n := |p|;
    || (n >= 2 && p[n - 2] == '\n' && p[n - 1] == '\n')
    || (n >= 4 && p[n - 4] == '\r' && p[n - 3] == '\n' && p[n - 2] == '\r' && p[n - 1] == '\n')
  }

  lemma FrameEndExactly(p: Bytes)
    ensures FrameEnded(p) <==> BlankLineAtEnd(p)
  {
    if HasSuffix(p, "\n\n") { assert p[|p| - 2..][0] == '\n' && p[|p| - 2..][1] == '\n'; }
    if HasSuffix(p, "\r\n\r\n") {
      var tail := p[|p| - 4..];
      assert tail[0] == '\r' && tail[1] == '\n' && tail[2] == '\r' && tail[3] == '\n';
    }
  }

  /** An object that is still open is waited for, unless a blank line says that the event is over. */
  lemma UnfinishedObject(d: Decoder, format: string, x: Bytes)
    requires Inspected(format) && |"data:" + x| < 16_384
    requires TrimSpace(x) != [] && TrimSpace(x)[0] == '{' && Json.ReadObject(TrimSpace(x)) == Json.Incomplete
    ensures Inspect(d, format, "data:" + x) == Inspection(!BlankLineAtEnd("data:" + x), None)
  {
    FrameEndExactly("data:" + x);
    DataBody(x, FrameEnded("data:" + x));
  }
}

/** Which error codes are numbers: the decimal ones, as strconv.Atoi reads them. */
module CodeNumbers {
  import opened ErrorStatus
  import opened StreamStartup

  predicate Zeros(s: string) {
    forall i :: 0 <= i < |s| ==> s[i] == '0'
  }

  /** The digits of a number behind any zeros, and nothing else. */
  ghost predicate Writes(s: string, n: nat) {
    exists zeros :: Zeros(zeros) && s == zeros + Digits(n)
  }

  lemma {:induction false} ZerosRead(zeros: string)
    requires Zeros(zeros)
    ensures DigitsValue(zeros) == 0
  {
    if zeros != [] { ZerosRead(zeros[..|zeros| - 1]); }
  }

  /** One more digit. */
  lemma OneMoreDigit(front: string, c: char)
    requires (forall i :: 0 <= i < |front| ==> '0' <= front[i] <= '9') && '0' <= c <= '9'
    ensures AllDigits(front + [c]) && DigitsValue(front + [c]) == 10 * DigitsValue(front) + (c as int - '0' as int)
  {
    assert (front + [c])[..|front|] == front;
  }

  lemma OneDigit(n: nat)
    requires n < 10
    ensures |Digits(n)| == 1 && '0' <= Digits(n)[0] <= '9' && Digits(n)[0] as int - '0' as int == n
  {
  }

  lemma DigitsShift(m: nat, digit: nat)
    requires m > 0 && digit < 10
    ensures Digits(10 * m + digit) == Digits(m) + Digits(digit)
  {
    assert (10 * m + digit) / 10 == m && (10 * m + digit) % 10 == digit;
  }

  lemma {:induction false} LeadingZeros(zeros: string, n: nat)
    requires Zeros(zeros)
    ensures AllDigits(zeros + Digits(n)) && DigitsValue(zeros + Digits(n)) == n
    decreases n
  {
    if n < 10 {
      OneDigit(n);
      ZerosRead(zeros);
      OneMoreDigit(zeros, Digits(n)[0]);
      assert Digits(n) == [Digits(n)[0]];
    } else {
      var front, last := Digits(n / 10), Digits(n % 10);
      LeadingZeros(zeros, n / 10);
      OneDigit(n % 10);
      OneMoreDigit(zeros + front, last[0]);
      assert zeros + Digits(n) == zeros + front + [last[0]];
    }
  }

  lemma LastDigit(s: string) returns (front: string, digit: nat, c: char)
    requires AllDigits(s)
    ensures s == front + [c] && |front| < |s| && digit < 10 && Digits(digit) == [c]
    ensures front == [] || AllDigits(front)
    ensures DigitsValue(s) == 10 * DigitsValue(front) + digit
  {
    front, c := s[..|s| - 1], s[|s| - 1];
    digit := c as int - '0' as int;
    DigitIs(c);
  }

  lemma {:induction false} DigitsWrite(s: string)
    requires AllDigits(s)
    ensures DigitsValue(s) >= 0 && Writes(s, DigitsValue(s))
    decreases |s|
  {
    var front, digit, c := LastDigit(s);
    if front == [] {
      WriteFirst(front, digit, c, DigitsValue(s));
    } else {
      DigitsWrite(front);
      WriteNext(front, DigitsValue(front), digit, c, DigitsValue(s));
    }
  }

  lemma DigitIs(c: char)
    requires '0' <= c <= '9'
    ensures Digits(c as int - '0' as int) == [c]
  {
    OneDigit(c as int - '0' as int);
  }

  lemma WriteFirst(zeros: string, digit: nat, c: char, n: int)
    requires Zeros(zeros) && digit < 10 && Digits(digit) == [c] && n == digit
    ensures n >= 0 && Writes(zeros + [c], n)
  {
  }

  lemma WriteNext(front: string, m: nat, digit: nat, c: char, n: int)
    requires Writes(front, m) && digit < 10 && Digits(digit) == [c] && n == 10 * m + digit
    ensures n >= 0 && Writes(front + [c], n)
  {
    var zeros :| Zeros(zeros) && front == zeros + Digits(m);
    if m == 0 {
      assert Digits(0) == ['0'];
      WriteFirst(front, digit, c, n);
    } else {
      DigitsShift(m, digit);
      assert front + [c] == zeros + Digits(n);
    }
  }

  lemma WritesExactly(s: string, n: nat)
    ensures Writes(s, n) <==> AllDigits(s) && DigitsValue(s) == n
  {
    if Writes(s, n) {
      var zeros :| Zeros(zeros) && s == zeros + Digits(n);
      LeadingZeros(zeros, n);
    }
    if AllDigits(s) { DigitsWrite(s); }
  }

  /** A code is an error status exactly when it is that number in decimal, with any zeros or a plus before it. */
  lemma CodeNumberExactly(code: string, n: nat)
    requires n > 0
    ensures Atoi(code) == n <==> Writes(code, n) || (code != [] && code[0] == '+' && Writes(code[1..], n))
  {
    WritesExactly(code, n);
    if code != [] {
      WritesExactly(code[1..], n);
      SignedValue(code[1..]);
      if code[0] in "+-" { SignIsNoDigit(code); }
    }
  }

  lemma SignedValue(s: string)
    ensures AllDigits(s) ==> DigitsValue(s) >= 0
  {
    if AllDigits(s) { DigitsWrite(s); }
  }

  lemma SignIsNoDigit(code: string)
    requires code != [] && code[0] in "+-"
    ensures !AllDigits(code)
  {
  }

  // ---- the message of a startup failure -----------------------------------

  lemma MiddleOf(front: string, a: string, b: string, back: string)
    requires front + a + back == front + b + back
    ensures a == b
  {
    assert a == (front + a + back)[|front|..|front| + |a|];
    assert b == (front + b + back)[|front|..|front| + |b|];
  }

  /** The message of a startup failure names its status and nothing of the upstream details. */
  lemma StartupMessage(status: nat, details: string, other: nat, others: string)
    ensures ErrorText(StartupError(status, details)) == ErrorText(StartupError(other, others)) <==> status == other
  {
    var a, b := ErrorText(StartupError(status, details)), ErrorText(StartupError(other, others));
    if a == b && status != 0 && other != 0 {
      MiddleOf(StartupText() + " (HTTP ", Digits(status), Digits(other), ")");
      DigitsRead(status);
      DigitsRead(other);
    }
  }
}
