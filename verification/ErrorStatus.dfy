/** Go error trees, and how an HTTP status is found in them, attached to them and kept through wrapping. */
module ErrorStatus {
  import opened Wrappers

  /**
   The shapes of error this plugin meets. `Coded` is a host envelope error with a StatusCode method,
   `StatusError` and `StartupError` are the plugin's own types, and `Joined` is fmt.Errorf with %w verbs:
   its rendered text and the wrapped errors in order.
   */
  datatype Err =
    | Plain(text: string)
    | Coded(status: int, text: string)
    | StatusError(status: int, cause: Option<Err>)
    | StartupError(status: int, details: string)
    | Joined(text: string, causes: seq<Err>)

  function Digits(n: nat): string {
    if n < 10 then [('0' as int + n) as char] else Digits(n / 10) + Digits(n % 10)
  }

  function Decimal(n: int): string {
    if n < 0 then "-" + Digits(-n) else Digits(n)
  }

  function StartupText(): string {
    "upstream stream startup failed"
  }

  /** The Error method. */
  function ErrorText(e: Err): string {
    match e
    case Plain(text) => text
    case Coded(_, text) => text
    case StatusError(status, cause) =>
      if cause.Some? then ErrorText(cause.value)
      else if status > 0 then "host model status " + Decimal(status)
      else "host model execution failed"
    case StartupError(status, _) =>
      if status != 0 then StartupText() + " (HTTP " + Decimal(status) + ")" else StartupText()
    case Joined(text, _) => text
  }

  /** errors.As for an interface with StatusCode: the first match of a depth-first search, itself included. */
  function FirstStatus(e: Err): Option<int> {
    match e
    case Plain(_) => None
    case Coded(status, _) => Some(status)
    case StatusError(status, _) => Some(status)
    case StartupError(status, _) => Some(status)
    case Joined(_, causes) => FirstStatusOf(causes)
  }

  function FirstStatusOf(causes: seq<Err>): Option<int> {
    if causes == [] then None
    else if FirstStatus(causes[0]).Some? then FirstStatus(causes[0])
    else FirstStatusOf(causes[1..])
  }

  /** errors.As for *streamStartupError: the details of the first one found. */
  function FirstStartup(e: Err): Option<string> {
    match e
    case StartupError(_, details) => Some(details)
    case StatusError(_, Some(cause)) => FirstStartup(cause)
    case Joined(_, causes) => FirstStartupOf(causes)
    case _ => None
  }

  function FirstStartupOf(causes: seq<Err>): Option<string> {
    if causes == [] then None
    else if FirstStartup(causes[0]).Some? then FirstStartup(causes[0])
    else FirstStartupOf(causes[1..])
  }

  /** The status pattern: the number captured from an error text, if the regular expression matches. */
  type StatusPattern = string -> Option<int>

  function HasDigit(s: string): bool {
    s != [] && ('0' <= s[0] <= '9' || HasDigit(s[1..]))
  }

  function StructuredStatus(e: Err): int {
    var found := FirstStatus(e);
    if found.Some? && 100 <= found.value <= 599 then found.value else 0
  }

  /**
   The status named in a text, 0 when none is. The expression itself is a parameter; it matches digits, so it cannot
   match a text that has none.
   */
  function TextStatus(p: StatusPattern, text: string): (status: int)
    ensures status == 0 || 400 <= status <= 599
  {
    var found := if HasDigit(text) then p(text) else None;
    if found.None? || found.value < 400 || found.value > 599 then 0 else found.value
  }

  function StatusFromError(p: StatusPattern, e: Err): (status: int)
    ensures status == 0 || 100 <= status <= 599
  {
    if StructuredStatus(e) > 0 then StructuredStatus(e) else TextStatus(p, ErrorText(e))
  }

  /** The status of a possibly nil error. */
  function StatusOf(p: StatusPattern, e: Option<Err>): int {
    if e.None? then 0 else StatusFromError(p, e.value)
  }

  function ErrorWithStatus(e: Err, status: int): Err {
    if status < 100 || status > 599 || StructuredStatus(e) == status then e
    else StatusError(status, Some(e))
  }

  /** How a loop ends: the reason, followed by the last counted failure when there was one. */
  function RetryTerminationError(p: StatusPattern, last: Option<Err>, reason: Err): Err {
    if last.None? then reason
    else ErrorWithStatus(Joined(StoppedText(reason, last.value), [reason, last.value]), StatusFromError(p, last.value))
  }

  function StoppedText(reason: Err, last: Err): string {
    "retry stopped: " + ErrorText(reason) + "; last error: " + ErrorText(last)
  }

  /** Attaching a real status makes it the status that is found, without changing the text. */
  lemma AttachedStatusIsFound(p: StatusPattern, e: Err, status: int)
    requires 100 <= status <= 599
    ensures StatusFromError(p, ErrorWithStatus(e, status)) == status
    ensures ErrorText(ErrorWithStatus(e, status)) == ErrorText(e)
  {
  }

  /** Recording an error under its own status never changes that status. */
  lemma RecordedStatus(p: StatusPattern, e: Err)
    ensures StatusFromError(p, ErrorWithStatus(e, StatusFromError(p, e))) == StatusFromError(p, e)
  {
  }

  /** Whatever status the reason carries, the last failure's status wins whenever it has one. */
  lemma TerminationKeepsStatus(p: StatusPattern, last: Err, reason: Err)
    requires StatusFromError(p, last) != 0
    ensures StatusFromError(p, RetryTerminationError(p, Some(last), reason)) == StatusFromError(p, last)
  {
  }

  /** A last failure without a status lets the reason's status through, and then the one named in the whole text. */
  lemma TerminationWithoutStatus(p: StatusPattern, last: Err, reason: Err)
    requires StatusFromError(p, last) == 0
    ensures var end := RetryTerminationError(p, Some(last), reason);
      && StructuredStatus(end) == StructuredStatus(reason)
      && StatusFromError(p, end) ==
           if StructuredStatus(reason) != 0 then StructuredStatus(reason) else TextStatus(p, StoppedText(reason, last))
  {
    FirstOfTwo(reason, last);
  }

  lemma FirstOfTwo(a: Err, b: Err)
    ensures FirstStatusOf([a, b]) == if FirstStatus(a).Some? then FirstStatus(a) else FirstStatus(b)
  {
    assert [a, b][1..] == [b] && [b][1..] == [];
    assert FirstStatusOf([b]) == FirstStatus(b);
  }

  /** Exactly when the error that ends a loop has the status of the last failure. */
  lemma TerminationKeepsStatusExactly(p: StatusPattern, last: Err, reason: Err)
    ensures var kept := StatusFromError(p, RetryTerminationError(p, Some(last), reason)) == StatusFromError(p, last);
      var silent := StructuredStatus(reason) == 0 && TextStatus(p, StoppedText(reason, last)) == 0;
      kept <==> StatusFromError(p, last) != 0 || silent
  {
    if StatusFromError(p, last) != 0 {
      TerminationKeepsStatus(p, last, reason);
    } else {
      TerminationWithoutStatus(p, last, reason);
    }
  }

  /** A failure without a status, stopped by a reason that has one: the loop's error has the reason's. */
  lemma StatusReplaced(p: StatusPattern)
    requires p("x") == None
    ensures var last, reason := Plain("x"), Coded(503, "y");
      && StatusFromError(p, last) == 0
      && StatusFromError(p, RetryTerminationError(p, Some(last), reason)) == 503
  {
    TerminationWithoutStatus(p, Plain("x"), Coded(503, "y"));
  }

  lemma {:induction false} NoDigit(s: string)
    requires forall i :: 0 <= i < |s| ==> !('0' <= s[i] <= '9')
    ensures !HasDigit(s)
  {
    if s != [] { NoDigit(s[1..]); }
  }

  lemma NoDigitNoStatus(p: StatusPattern, e: Err)
    requires FirstStatus(e) == Some(0) && !HasDigit(ErrorText(e))
    ensures StatusFromError(p, e) == 0
  {
  }

  lemma NoDigitInStartupText()
    ensures !HasDigit(StartupText())
  {
    var text := StartupText();
    assert forall i :: 0 <= i < |text| ==> !('0' <= text[i] <= '9');
    NoDigit(text);
  }

  /** Only digits can produce a status, so the fixed startup message without one has none. */
  lemma StartupStatus(p: StatusPattern, status: int, details: string)
    requires status == 0 || 100 <= status <= 599
    ensures StatusFromError(p, StartupError(status, details)) == status
  {
    if status == 0 {
      NoDigitInStartupText();
      NoDigitNoStatus(p, StartupError(0, details));
    }
  }
}
