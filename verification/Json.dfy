/** A byte-at-a-time scanner for one JSON object, following the grammar of RFC 8259, sections 2 to 7. */
module Json {
  import opened Text

  const MAX_DEPTH := 10000

  datatype Mode =
    | BeginValue | BeginValueOrEmpty | BeginString | BeginStringOrEmpty | EndValue
    | InString | InEscape | InHex(left: nat)
    | Minus | Zero | Digits | Dot | Fraction | Exponent | ExponentSign | ExponentDigits
    | Word(rest: Bytes)
    | Complete | Error

  /** Where inside an object or array the scanner is. */
  datatype Place = ObjectKey | ObjectValue | ArrayValue

  datatype Scan = Scan(mode: Mode, stack: seq<Place>)

  const START := Scan(BeginValue, [])
  const FAILED := Scan(Error, [])

  predicate JsonSpace(c: char) { c == ' ' || c == '\t' || c == '\r' || c == '\n' }

  predicate Digit(c: char) { '0' <= c <= '9' }

  predicate Hex(c: char) { Digit(c) || 'a' <= c <= 'f' || 'A' <= c <= 'F' }

  function Push(s: Scan, p: Place, mode: Mode): Scan {
    if |s.stack| < MAX_DEPTH then Scan(mode, s.stack + [p]) else FAILED
  }

  function Pop(s: Scan): Scan
    requires s.stack != []
  {
    var rest := s.stack[..|s.stack| - 1];
    Scan(if rest == [] then Complete else EndValue, rest)
  }

  function Top(s: Scan, p: Place, mode: Mode): Scan
    requires s.stack != []
  {
    Scan(mode, s.stack[|s.stack| - 1 := p])
  }

  function To(s: Scan, mode: Mode): Scan { s.(mode := mode) }

  function AfterValue(s: Scan, c: char): Scan {
    if s.stack == [] then FAILED
    else if JsonSpace(c) then To(s, EndValue)
    else
      match s.stack[|s.stack| - 1]
      case ObjectKey => if c == ':' then Top(s, ObjectValue, BeginValue) else FAILED
      case ObjectValue => if c == ',' then Top(s, ObjectKey, BeginString) else if c == '}' then Pop(s) else FAILED
      case ArrayValue => if c == ',' then To(s, BeginValue) else if c == ']' then Pop(s) else FAILED
  }

  function FirstByte(s: Scan, c: char): Scan {
    if JsonSpace(c) then s
    else if c == '{' then Push(s, ObjectKey, BeginStringOrEmpty)
    else if c == '[' then Push(s, ArrayValue, BeginValueOrEmpty)
    else if c == '"' then To(s, InString)
    else if c == '-' then To(s, Minus)
    else if c == '0' then To(s, Zero)
    else if Digit(c) then To(s, Digits)
    else if c == 't' then To(s, Word("rue"))
    else if c == 'f' then To(s, Word("alse"))
    else if c == 'n' then To(s, Word("ull"))
    else FAILED
  }

  function FirstQuote(s: Scan, c: char): Scan {
    if JsonSpace(c) then s else if c == '"' then To(s, InString) else FAILED
  }

  function NumberByte(s: Scan, c: char): Scan {
    match s.mode
    case Minus => if c == '0' then To(s, Zero) else if Digit(c) then To(s, Digits) else FAILED
    case Dot => if Digit(c) then To(s, Fraction) else FAILED
    case Exponent =>
      if c == '+' || c == '-' then To(s, ExponentSign) else if Digit(c) then To(s, ExponentDigits) else FAILED
    case ExponentSign => if Digit(c) then To(s, ExponentDigits) else FAILED
    case ExponentDigits => if Digit(c) then s else AfterValue(s, c)
    case _ =>
      if Digit(c) && !s.mode.Zero? then s
      else if c == '.' && !s.mode.Fraction? then To(s, Dot)
      else if c == 'e' || c == 'E' then To(s, Exponent)
      else AfterValue(s, c)
  }

  function StringByte(s: Scan, c: char): Scan {
    match s.mode
    case InEscape =>
      if c == 'u' then To(s, InHex(4)) else if c in "bfnrt\\/\"" then To(s, InString) else FAILED
    case InHex(left) => if !Hex(c) then FAILED else To(s, if left <= 1 then InString else InHex(left - 1))
    case _ =>
      if c == '"' then To(s, EndValue) else if c == '\\' then To(s, InEscape) else if c < ' ' then FAILED else s
  }

  function Advance(s: Scan, c: char): Scan {
    match s.mode
    case Complete => s
    case Error => s
    case BeginValue => FirstByte(s, c)
    case BeginValueOrEmpty =>
      if c == ']' && s.stack != [] then Pop(s) else if JsonSpace(c) then s else FirstByte(To(s, BeginValue), c)
    case BeginString => FirstQuote(s, c)
    case BeginStringOrEmpty =>
      if c == '}' && s.stack != [] then Pop(s) else if JsonSpace(c) then s else FirstQuote(To(s, BeginString), c)
    case EndValue => AfterValue(s, c)
    case Word(rest) =>
      if rest == [] || c != rest[0] then FAILED else To(s, if |rest| == 1 then EndValue else Word(rest[1..]))
    case InString => StringByte(s, c)
    case InEscape => StringByte(s, c)
    case InHex(_) => StringByte(s, c)
    case _ => NumberByte(s, c)
  }

  /** Reading the first value of a text: still open at its end, broken, or complete after `end` bytes. */
  datatype Decoded = Incomplete | Malformed | Object(end: nat)

  function ReadFrom(s: Scan, data: Bytes, used: nat): Decoded
    decreases |data|
  {
    if s.mode.Complete? then Object(used)
    else if s.mode.Error? then Malformed
    else if data == [] then Incomplete
    else ReadFrom(Advance(s, data[0]), data[1..], used + 1)
  }

  function ReadObject(data: Bytes): Decoded {
    ReadFrom(START, data, 0)
  }

  /** The text is exactly one complete value. */
  predicate ExactObject(data: Bytes) {
    data != [] && data[0] == '{' && ReadObject(data) == Object(|data|)
  }

  lemma {:induction false} UsedBounds(s: Scan, data: Bytes, used: nat)
    ensures ReadFrom(s, data, used).Object? ==> used <= ReadFrom(s, data, used).end <= used + |data|
    decreases |data|
  {
    if !s.mode.Complete? && !s.mode.Error? && data != [] { UsedBounds(Advance(s, data[0]), data[1..], used + 1); }
  }

  /** A value that ends at `end` is open in every shorter prefix and ends there in every extension. */
  lemma {:induction false} PrefixesAreOpen(s: Scan, data: Bytes, used: nat, cut: nat)
    requires ReadFrom(s, data, used).Object? && cut <= |data|
    ensures used + cut < ReadFrom(s, data, used).end ==> ReadFrom(s, data[..cut], used) == Incomplete
    ensures used + cut >= ReadFrom(s, data, used).end ==> ReadFrom(s, data[..cut], used) == ReadFrom(s, data, used)
    decreases |data|
  {
    UsedBounds(s, data, used);
    if !s.mode.Complete? && data != [] {
      UsedBounds(Advance(s, data[0]), data[1..], used + 1);
      if cut > 0 {
        PrefixesAreOpen(Advance(s, data[0]), data[1..], used + 1, cut - 1);
        assert data[..cut][1..] == data[1..][..cut - 1];
      }
    }
  }

  lemma {:induction false} ExtensionsAgree(s: Scan, data: Bytes, more: Bytes, used: nat)
    requires ReadFrom(s, data, used).Object?
    ensures ReadFrom(s, data + more, used) == ReadFrom(s, data, used)
    decreases |data|
  {
    if !s.mode.Complete? {
      assert (data + more)[1..] == data[1..] + more;
      ExtensionsAgree(Advance(s, data[0]), data[1..], more, used + 1);
    }
  }

  /** The last byte of a complete object closes it. */
  lemma {:induction false} EndsWithBrace(s: Scan, data: Bytes, used: nat)
    requires ReadFrom(s, data, used) == Object(used + |data|) && data != []
    ensures !IsSpace(data[|data| - 1])
    decreases |data|
  {
    var next := Advance(s, data[0]);
    UsedBounds(next, data[1..], used + 1);
    if |data| == 1 {
      assert next.mode.Complete?;
    } else {
      EndsWithBrace(next, data[1..], used + 1);
    }
  }

  lemma EmptyObject()
    ensures ExactObject("{}")
  {
    var obj := "{}";
    assert obj[1..] == "}";
  }
}
