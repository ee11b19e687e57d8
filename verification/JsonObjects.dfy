/** JSON values with the text they are written as, white space and escapes included: RFC 8259, sections 2 to 7. */
module JsonGrammar {
  import opened Wrappers
  import opened Text

  /** One character of a string, as it is written. */
  datatype Piece = Raw(c: char) | Escape(c: char) | Unicode(hex: Bytes)

  datatype Exponent = Exponent(e: char, sign: Bytes, digits: Bytes)

  datatype Number = Number(minus: bool, whole: Bytes, fraction: Option<Bytes>, exponent: Option<Exponent>)

  /** `pad` is the white space of an empty object or array. */
  datatype Value =
    | Obj(pad: Bytes, members: seq<Member>)
    | Arr(pad: Bytes, items: seq<Item>)
    | Str(text: seq<Piece>)
    | Num(number: Number)
    | Literal(word: Bytes)

  /** A value with the white space around it. */
  datatype Item = Item(before: Bytes, value: Value, after: Bytes)

  datatype Member = Member(before: Bytes, key: seq<Piece>, mid: Bytes, item: Item)

  // ---- the text -----------------------------------------------------------

  function PieceText(p: Piece): Bytes {
    match p
    case Raw(c) => [c]
    case Escape(c) => ['\\', c]
    case Unicode(hex) => ['\\', 'u'] + hex
  }

  function PiecesText(ps: seq<Piece>): Bytes {
    if ps == [] then [] else PiecesText(ps[..|ps| - 1]) + PieceText(ps[|ps| - 1])
  }

  function StringText(ps: seq<Piece>): Bytes {
    "\"" + PiecesText(ps) + "\""
  }

  function ExponentText(x: Exponent): Bytes {
    [x.e] + x.sign + x.digits
  }

  function NumberText(n: Number): Bytes {
    (if n.minus then "-" else []) + n.whole
    + (if n.fraction.Some? then "." + n.fraction.value else [])
    + (if n.exponent.Some? then ExponentText(n.exponent.value) else [])
  }

  function Render(v: Value): Bytes {
    match v
    case Obj(pad, members) => "{" + MembersText(members) + pad + "}"
    case Arr(pad, items) => "[" + ItemsText(items) + pad + "]"
    case Str(text) => StringText(text)
    case Num(number) => NumberText(number)
    case Literal(word) => word
  }

  function ItemText(i: Item): Bytes {
    i.before + Render(i.value) + i.after
  }

  function MemberText(m: Member): Bytes {
    m.before + StringText(m.key) + m.mid + ":" + ItemText(m.item)
  }

  /** The comma before entry number `k`. */
  function Comma(k: nat): Bytes {
    if k == 0 then [] else ","
  }

  function MembersText(ms: seq<Member>): Bytes {
    if ms == [] then []
    else MembersText(ms[..|ms| - 1]) + Comma(|ms| - 1) + MemberText(ms[|ms| - 1])
  }

  function ItemsText(items: seq<Item>): Bytes {
    if items == [] then []
    else ItemsText(items[..|items| - 1]) + Comma(|items| - 1) + ItemText(items[|items| - 1])
  }

  // ---- what is well formed ------------------------------------------------

  /** Insignificant white space: blank, tab, line feed and carriage return. */
  predicate White(c: char) { c == ' ' || c == '\t' || c == '\n' || c == '\r' }

  predicate Decimal(c: char) { '0' <= c <= '9' }

  predicate Hexadecimal(c: char) { Decimal(c) || 'a' <= c <= 'f' || 'A' <= c <= 'F' }

  predicate AllJsonSpace(s: Bytes) {
    forall i :: 0 <= i < |s| ==> White(s[i])
  }

  predicate AllDigits(s: Bytes) {
    s != [] && forall i :: 0 <= i < |s| ==> Decimal(s[i])
  }

  predicate GoodPiece(p: Piece) {
    match p
    case Raw(c) => c >= ' ' && c != '"' && c != '\\'
    case Escape(c) => c in "bfnrt\\/\""
    case Unicode(hex) => |hex| == 4 && forall i :: 0 <= i < 4 ==> Hexadecimal(hex[i])
  }

  predicate GoodString(ps: seq<Piece>) {
    forall i :: 0 <= i < |ps| ==> GoodPiece(ps[i])
  }

  predicate GoodNumber(n: Number) {
    && AllDigits(n.whole) && (n.whole[0] == '0' ==> |n.whole| == 1)
    && (n.fraction.Some? ==> AllDigits(n.fraction.value))
    && (n.exponent.Some? ==> GoodExponent(n.exponent.value))
  }

  predicate GoodExponent(x: Exponent) {
    (x.e == 'e' || x.e == 'E') && (x.sign == [] || x.sign == "+" || x.sign == "-") && AllDigits(x.digits)
  }

  predicate Good(v: Value) {
    match v
    case Obj(pad, members) => AllJsonSpace(pad) && (members != [] ==> pad == []) && GoodMembers(members)
    case Arr(pad, items) => AllJsonSpace(pad) && (items != [] ==> pad == []) && GoodItems(items)
    case Str(text) => GoodString(text)
    case Num(number) => GoodNumber(number)
    case Literal(word) => word == "true" || word == "false" || word == "null"
  }

  predicate GoodItem(i: Item) {
    AllJsonSpace(i.before) && Good(i.value) && AllJsonSpace(i.after)
  }

  predicate GoodMember(m: Member) {
    AllJsonSpace(m.before) && GoodString(m.key) && AllJsonSpace(m.mid) && GoodItem(m.item)
  }

  predicate GoodMembers(ms: seq<Member>) {
    ms == [] || (GoodMembers(ms[..|ms| - 1]) && GoodMember(ms[|ms| - 1]))
  }

  predicate GoodItems(items: seq<Item>) {
    items == [] || (GoodItems(items[..|items| - 1]) && GoodItem(items[|items| - 1]))
  }

  // ---- nesting ------------------------------------------------------------

  function Max(a: nat, b: nat): nat {
    if a >= b then a else b
  }

  /** How deep objects and arrays are nested. */
  function Depth(v: Value): nat {
    match v
    case Obj(_, members) => 1 + MembersDepth(members)
    case Arr(_, items) => 1 + ItemsDepth(items)
    case _ => 0
  }

  function MembersDepth(ms: seq<Member>): nat {
    if ms == [] then 0 else Max(MembersDepth(ms[..|ms| - 1]), Depth(ms[|ms| - 1].item.value))
  }

  function ItemsDepth(items: seq<Item>): nat {
    if items == [] then 0 else Max(ItemsDepth(items[..|items| - 1]), Depth(items[|items| - 1].value))
  }

  /** An object of the grammar, nested no deeper than the decoder allows. */
  predicate GoodObject(v: Value) {
    v.Obj? && Good(v) && Depth(v) <= 10_000
  }
}

/** The scanner accepts every object of the grammar, whatever its white space, escapes and nesting. */
module JsonComplete {
  import opened Wrappers
  import opened Text
  import opened Json
  import opened JsonGrammar

  // ---- feeding bytes ------------------------------------------------------

  /** The scanner after some bytes. */
  function Feed(s: Scan, data: Bytes): Scan {
    if data == [] then s else Advance(Feed(s, data[..|data| - 1]), data[|data| - 1])
  }

  lemma FeedOne(s: Scan, c: char)
    ensures Feed(s, [c]) == Advance(s, c)
  {
    assert [c][..0] == [];
  }

  lemma {:induction false} FeedAppend(s: Scan, a: Bytes, b: Bytes)
    ensures Feed(s, a + b) == Feed(Feed(s, a), b)
    decreases |b|
  {
    if b == [] {
      assert a + b == a;
    } else {
      assert (a + b)[..|a + b| - 1] == a + b[..|b| - 1];
      FeedAppend(s, a, b[..|b| - 1]);
    }
  }

  lemma FeedThree(s: Scan, a: Bytes, b: Bytes, c: Bytes)
    ensures Feed(s, a + b + c) == Feed(Feed(Feed(s, a), b), c)
  {
    FeedAppend(s, a + b, c);
    FeedAppend(s, a, b);
  }

  lemma {:induction false} FeedFront(s: Scan, data: Bytes)
    requires data != []
    ensures Feed(s, data) == Feed(Advance(s, data[0]), data[1..])
  {
    assert data == [data[0]] + data[1..];
    FeedAppend(s, [data[0]], data[1..]);
    FeedOne(s, data[0]);
  }

  lemma {:induction false} Finished(s: Scan, data: Bytes)
    requires s.mode.Complete? || s.mode.Error?
    ensures Feed(s, data) == s
  {
    if data != [] { Finished(s, data[..|data| - 1]); }
  }

  lemma Inner(data: Bytes)
    requires |data| > 1
    ensures data[..|data| - 1][0] == data[0] && data[..|data| - 1][1..] == data[1..][..|data[1..]| - 1]
  {
  }

  /** Fed bytes are read exactly when the last of them completes the value. */
  lemma {:induction false} ReadsFed(s: Scan, data: Bytes, used: nat)
    requires data != [] && Feed(s, data).mode.Complete?
    requires !Feed(s, data[..|data| - 1]).mode.Complete?
    ensures ReadFrom(s, data, used) == Object(used + |data|)
    decreases |data|
  {
    if s.mode.Complete? || s.mode.Error? {
      Finished(s, data);
      Finished(s, data[..|data| - 1]);
      assert false;
    }
    var next := Advance(s, data[0]);
    FeedFront(s, data);
    if |data| == 1 {
      assert Feed(next, []) == next;
    } else {
      FeedFront(s, data[..|data| - 1]);
      Inner(data);
      ReadsFed(next, data[1..], used + 1);
    }
  }

  // ---- the parts of a text ------------------------------------------------

  /** Between a value's end and what follows it; a number ends only where something else begins. */
  predicate Ended(t: Scan, stack: seq<Place>) {
    && t.stack == stack && stack != []
    && (t.mode.EndValue? || t.mode.Zero? || t.mode.Digits? || t.mode.Fraction? || t.mode.ExponentDigits?)
  }

  predicate Separates(c: char) {
    JsonSpace(c) || c == ',' || c == '}' || c == ']'
  }

  lemma AfterEnded(t: Scan, stack: seq<Place>, c: char)
    requires Ended(t, stack) && Separates(c)
    ensures Advance(t, c) == AfterValue(Scan(EndValue, stack), c)
  {
  }

  /** White space changes nothing where it may stand. */
  predicate SkipsSpace(s: Scan) {
    || s.mode.BeginValue? || s.mode.BeginValueOrEmpty? || s.mode.BeginString? || s.mode.BeginStringOrEmpty?
    || (s.mode.EndValue? && s.stack != [])
  }

  lemma {:induction false} FeedPad(s: Scan, pad: Bytes)
    requires SkipsSpace(s) && AllJsonSpace(pad)
    ensures Feed(s, pad) == s
  {
    if pad != [] { FeedPad(s, pad[..|pad| - 1]); }
  }

  lemma {:induction false} FeedPadEnded(t: Scan, stack: seq<Place>, pad: Bytes)
    requires Ended(t, stack) && AllJsonSpace(pad)
    ensures Ended(Feed(t, pad), stack)
  {
    if pad != [] {
      FeedPadEnded(t, stack, pad[..|pad| - 1]);
      AfterEnded(Feed(t, pad[..|pad| - 1]), stack, pad[|pad| - 1]);
    }
  }

  lemma FeedPiece(s: Scan, p: Piece)
    requires s.mode.InString? && GoodPiece(p)
    ensures Feed(s, PieceText(p)) == s
  {
    match p
    case Raw(c) => FeedOne(s, c);
    case Escape(c) =>
      assert ['\\', c] == ['\\'] + [c];
      FeedAppend(s, ['\\'], [c]);
      FeedOne(s, '\\');
      FeedOne(To(s, InEscape), c);
    case Unicode(hex) =>
      assert ['\\', 'u'] == ['\\'] + ['u'];
      FeedAppend(s, ['\\', 'u'], hex);
      FeedAppend(s, ['\\'], ['u']);
      FeedOne(s, '\\');
      FeedOne(To(s, InEscape), 'u');
      FeedHex(s, hex);
  }

  lemma FeedHex(s: Scan, hex: Bytes)
    requires |hex| == 4 && forall i :: 0 <= i < 4 ==> Hex(hex[i])
    ensures Feed(To(s, InHex(4)), hex) == To(s, InString)
  {
    assert hex == [hex[0]] + [hex[1]] + [hex[2]] + [hex[3]];
    var t := To(s, InHex(4));
    FeedAppend(t, [hex[0]] + [hex[1]] + [hex[2]], [hex[3]]);
    FeedThree(t, [hex[0]], [hex[1]], [hex[2]]);
    FeedOne(t, hex[0]);
    FeedOne(To(s, InHex(3)), hex[1]);
    FeedOne(To(s, InHex(2)), hex[2]);
    FeedOne(To(s, InHex(1)), hex[3]);
  }

  lemma {:induction false} FeedPieces(s: Scan, ps: seq<Piece>)
    requires s.mode.InString? && GoodString(ps)
    ensures Feed(s, PiecesText(ps)) == s
  {
    if ps != [] {
      var n := |ps| - 1;
      FeedPieces(s, ps[..n]);
      FeedAppend(s, PiecesText(ps[..n]), PieceText(ps[n]));
      FeedPiece(s, ps[n]);
    }
  }

  /** A string, where one may begin. */
  lemma FeedString(s: Scan, ps: seq<Piece>)
    requires GoodString(ps)
    requires s.mode.BeginValue? || s.mode.BeginString? || s.mode.BeginStringOrEmpty?
    ensures Feed(s, StringText(ps)) == To(s, EndValue)
  {
    FeedThree(s, "\"", PiecesText(ps), "\"");
    FeedOne(s, '"');
    FeedPieces(To(s, InString), ps);
    FeedOne(To(s, InString), '"');
  }

  /** More digits where digits are being read. */
  lemma {:induction false} FeedDigits(s: Scan, ds: Bytes)
    requires s.mode.Digits? || s.mode.Fraction? || s.mode.ExponentDigits?
    requires forall i :: 0 <= i < |ds| ==> Digit(ds[i])
    ensures Feed(s, ds) == s
  {
    if ds != [] { FeedDigits(s, ds[..|ds| - 1]); }
  }

  lemma FeedFirstDigit(s: Scan, ds: Bytes, mode: Mode)
    requires AllDigits(ds) && (mode.Digits? || mode.Fraction? || mode.ExponentDigits?)
    requires Advance(s, ds[0]) == To(s, mode)
    ensures Feed(s, ds) == To(s, mode)
  {
    FeedFront(s, ds);
    FeedDigits(To(s, mode), ds[1..]);
  }

  lemma FeedWhole(s: Scan, ds: Bytes) returns (mode: Mode)
    requires (s.mode.BeginValue? || s.mode.Minus?) && AllDigits(ds) && (ds[0] == '0' ==> |ds| == 1)
    ensures (mode.Zero? || mode.Digits?) && Feed(s, ds) == To(s, mode)
  {
    if ds[0] == '0' {
      mode := Zero;
      assert ds == [ds[0]];
      FeedOne(s, ds[0]);
    } else {
      mode := Digits;
      FeedFirstDigit(s, ds, Digits);
    }
  }

  lemma FeedFraction(s: Scan, ds: Bytes)
    requires (s.mode.Zero? || s.mode.Digits?) && AllDigits(ds)
    ensures Feed(s, "." + ds) == To(s, Fraction)
  {
    FeedAppend(s, ".", ds);
    FeedOne(s, '.');
    FeedFirstDigit(To(s, Dot), ds, Fraction);
  }

  lemma FeedSign(s: Scan, sign: Bytes, digit: char)
    requires s.mode == Json.Exponent && (sign == [] || sign == "+" || sign == "-") && Digit(digit)
    ensures Advance(Feed(s, sign), digit) == To(s, ExponentDigits)
  {
    if sign != [] {
      assert sign == [sign[0]];
      FeedOne(s, sign[0]);
    }
  }

  lemma ExponentBegins(s: Scan, e: char)
    requires (s.mode.Zero? || s.mode.Digits? || s.mode.Fraction?) && (e == 'e' || e == 'E')
    ensures Feed(s, [e]) == To(s, Json.Exponent)
  {
    FeedOne(s, e);
    assert Advance(s, e) == NumberByte(s, e);
  }

  lemma FeedPower(t: Scan, sign: Bytes, digits: Bytes)
    requires t.mode == Json.Exponent && (sign == [] || sign == "+" || sign == "-") && AllDigits(digits)
    ensures Feed(Feed(t, sign), digits) == To(t, ExponentDigits)
  {
    FeedSign(t, sign, digits[0]);
    FeedFront(Feed(t, sign), digits);
    FeedDigits(To(t, ExponentDigits), digits[1..]);
  }

  lemma FeedExponent(s: Scan, x: Exponent)
    requires (s.mode.Zero? || s.mode.Digits? || s.mode.Fraction?) && GoodExponent(x)
    ensures Feed(s, ExponentText(x)) == To(s, ExponentDigits)
  {
    ExponentBegins(s, x.e);
    FeedPower(To(s, Json.Exponent), x.sign, x.digits);
    FeedThree(s, [x.e], x.sign, x.digits);
  }

  /** What may follow the whole part of a number. */
  lemma FeedTail(s: Scan, fraction: Option<Bytes>, exponent: Option<JsonGrammar.Exponent>, point: Bytes, power: Bytes)
    returns (mode: Mode)
    requires s.mode.Zero? || s.mode.Digits?
    requires (fraction.Some? ==> AllDigits(fraction.value)) && (exponent.Some? ==> GoodExponent(exponent.value))
    requires point == if fraction.Some? then "." + fraction.value else []
    requires power == if exponent.Some? then ExponentText(exponent.value) else []
    ensures mode.Zero? || mode.Digits? || mode.Fraction? || mode.ExponentDigits?
    ensures Feed(Feed(s, point), power) == To(s, mode)
  {
    mode := s.mode;
    if fraction.Some? {
      FeedFraction(s, fraction.value);
      mode := Fraction;
    }
    if exponent.Some? {
      FeedExponent(To(s, mode), exponent.value);
      mode := ExponentDigits;
    }
  }

  lemma FeedNumber(s: Scan, n: Number) returns (mode: Mode)
    requires s.mode.BeginValue? && GoodNumber(n)
    ensures mode.Zero? || mode.Digits? || mode.Fraction? || mode.ExponentDigits?
    ensures Feed(s, NumberText(n)) == To(s, mode)
  {
    var sign := if n.minus then "-" else [];
    var point := if n.fraction.Some? then "." + n.fraction.value else [];
    var power := if n.exponent.Some? then ExponentText(n.exponent.value) else [];
    FeedFour(s, sign, n.whole, point, power);
    var whole := FeedSigned(s, n.minus, n.whole, sign);
    mode := FeedTail(To(s, whole), n.fraction, n.exponent, point, power);
  }

  lemma FeedFour(s: Scan, a: Bytes, b: Bytes, c: Bytes, d: Bytes)
    ensures Feed(s, a + b + c + d) == Feed(Feed(Feed(Feed(s, a), b), c), d)
  {
    FeedAppend(s, a + b + c, d);
    FeedThree(s, a, b, c);
  }

  lemma FeedSigned(s: Scan, minus: bool, ds: Bytes, sign: Bytes) returns (mode: Mode)
    requires s.mode.BeginValue? && AllDigits(ds) && (ds[0] == '0' ==> |ds| == 1)
    requires sign == if minus then "-" else []
    ensures (mode.Zero? || mode.Digits?) && Feed(Feed(s, sign), ds) == To(s, mode)
  {
    if minus {
      FeedOne(s, '-');
      mode := FeedWhole(To(s, Minus), ds);
    } else {
      mode := FeedWhole(s, ds);
    }
  }

  lemma {:induction false} FeedWord(s: Scan, rest: Bytes)
    requires s.mode == Word(rest) && rest != []
    ensures Feed(s, rest) == To(s, EndValue)
    decreases |rest|
  {
    FeedFront(s, rest);
    if |rest| > 1 {
      FeedWord(To(s, Word(rest[1..])), rest[1..]);
    } else {
      assert rest[1..] == [];
    }
  }

  lemma FeedLiteral(s: Scan, word: Bytes)
    requires s.mode.BeginValue? && (word == "true" || word == "false" || word == "null")
    ensures Feed(s, word) == To(s, EndValue)
  {
    FeedFront(s, word);
    var rest := word[1..];
    if word == "true" {
      assert rest == "rue";
    } else if word == "false" {
      assert rest == "alse";
    } else {
      assert rest == "ull";
    }
    FeedWord(To(s, Word(rest)), rest);
  }

  // ---- values -------------------------------------------------------------

  /** There is room for the value's own nesting. */
  predicate Fits(s: Scan, depth: nat) {
    |s.stack| + depth <= MAX_DEPTH
  }

  lemma ValueStarts(v: Value)
    requires Good(v)
    ensures Render(v) != [] && !JsonSpace(Render(v)[0]) && Render(v)[0] != ']'
  {
    match v
    case Num(n) =>
      assert NumberText(n)[0] == if n.minus then '-' else n.whole[0];
    case _ =>
  }

  /** The first item of an array is read like any other. */
  lemma FeedFirstItem(s: Scan, data: Bytes)
    requires s.mode.BeginValueOrEmpty? && data != [] && !JsonSpace(data[0]) && data[0] != ']'
    ensures Feed(s, data) == Feed(To(s, BeginValue), data)
  {
    FeedFront(s, data);
    FeedFront(To(s, BeginValue), data);
  }

  lemma {:induction false} FeedValue(s: Scan, v: Value)
    requires Good(v) && s.mode.BeginValue? && s.stack != [] && Fits(s, Depth(v))
    ensures Ended(Feed(s, Render(v)), s.stack)
    decreases v, 1
  {
    match v
    case Obj(pad, members) => FeedObject(s, pad, members);
    case Arr(pad, items) => FeedArray(s, pad, items);
    case Str(text) => FeedString(s, text);
    case Num(number) => var mode := FeedNumber(s, number);
    case Literal(word) => FeedLiteral(s, word);
  }

  lemma PopOff(s: Scan, outer: seq<Place>, place: Place)
    requires s.stack == outer + [place]
    ensures Pop(s) == Scan(if outer == [] then Complete else EndValue, outer)
  {
    assert s.stack[..|s.stack| - 1] == outer;
  }

  function Closing(place: Place): char {
    if place.ArrayValue? then ']' else '}'
  }

  /** The closing bracket after all entries. */
  lemma Closes(t: Scan, outer: seq<Place>, place: Place)
    requires place != ObjectKey && Ended(t, outer + [place])
    ensures Advance(t, Closing(place)) == Scan(if outer == [] then Complete else EndValue, outer)
  {
    AfterEnded(t, outer + [place], Closing(place));
    PopOff(Scan(EndValue, outer + [place]), outer, place);
  }

  /** The closing bracket after nothing but white space. */
  lemma ClosesEmpty(outer: seq<Place>)
    ensures Advance(Scan(BeginStringOrEmpty, outer + [ObjectKey]), '}')
         == Scan(if outer == [] then Complete else EndValue, outer)
    ensures Advance(Scan(BeginValueOrEmpty, outer + [ArrayValue]), ']')
         == Scan(if outer == [] then Complete else EndValue, outer)
  {
    PopOff(Scan(BeginStringOrEmpty, outer + [ObjectKey]), outer, ObjectKey);
    PopOff(Scan(BeginValueOrEmpty, outer + [ArrayValue]), outer, ArrayValue);
  }

  /** The opening bracket. */
  lemma Opens(s: Scan)
    requires s.mode.BeginValue? && |s.stack| < MAX_DEPTH
    ensures Advance(s, '{') == Scan(BeginStringOrEmpty, s.stack + [ObjectKey])
    ensures Advance(s, '[') == Scan(BeginValueOrEmpty, s.stack + [ArrayValue])
  {
  }

  /** Everything inside an object but the braces. */
  lemma {:induction false} FeedInObject(outer: seq<Place>, pad: Bytes, members: seq<Member>)
    requires AllJsonSpace(pad) && (members != [] ==> pad == []) && GoodMembers(members)
    requires |outer| + 1 + MembersDepth(members) <= MAX_DEPTH
    ensures var t := Feed(Scan(BeginStringOrEmpty, outer + [ObjectKey]), MembersText(members) + pad);
      if members == [] then t == Scan(BeginStringOrEmpty, outer + [ObjectKey]) else Ended(t, outer + [ObjectValue])
    decreases members, 1
  {
    var s := Scan(BeginStringOrEmpty, outer + [ObjectKey]);
    FeedAppend(s, MembersText(members), pad);
    if members == [] {
      FeedPad(s, pad);
    } else {
      FeedMembers(outer, members);
    }
  }

  /** The state in which an object may be closed. */
  predicate InObject(t: Scan, outer: seq<Place>) {
    t == Scan(BeginStringOrEmpty, outer + [ObjectKey]) || Ended(t, outer + [ObjectValue])
  }

  lemma ObjectCloses(t: Scan, outer: seq<Place>)
    requires InObject(t, outer)
    ensures !t.mode.Complete?
    ensures Feed(t, "}") == Scan(if outer == [] then Complete else EndValue, outer)
  {
    FeedOne(t, '}');
    if t.mode.BeginStringOrEmpty? { ClosesEmpty(outer); } else { Closes(t, outer, ObjectValue); }
  }

  lemma {:induction false} FeedObject(s: Scan, pad: Bytes, members: seq<Member>)
    requires s.mode.BeginValue? && AllJsonSpace(pad) && (members != [] ==> pad == []) && GoodMembers(members)
    requires |s.stack| + 1 + MembersDepth(members) <= MAX_DEPTH
    ensures var v, end := Obj(pad, members), if s.stack == [] then Complete else EndValue;
      && Feed(s, Render(v)) == Scan(end, s.stack)
      && !Feed(s, "{" + MembersText(members) + pad).mode.Complete?
    decreases members, 2
  {
    var inside := MembersText(members) + pad;
    FeedInObject(s.stack, pad, members);
    assert "{" + MembersText(members) + pad == "{" + inside;
    FeedThree(s, "{", inside, "}");
    FeedAppend(s, "{", inside);
    FeedOne(s, '{');
    Opens(s);
    ObjectCloses(Feed(s, "{" + inside), s.stack);
  }

  lemma {:induction false} FeedArray(s: Scan, pad: Bytes, items: seq<Item>)
    requires s.mode.BeginValue? && s.stack != [] && AllJsonSpace(pad) && (items != [] ==> pad == []) && GoodItems(items)
    requires |s.stack| + 1 + ItemsDepth(items) <= MAX_DEPTH
    ensures Feed(s, Render(Arr(pad, items))) == Scan(EndValue, s.stack)
    decreases items, 2
  {
    var inside := ItemsText(items) + pad;
    assert Render(Arr(pad, items)) == "[" + inside + "]";
    FeedThree(s, "[", inside, "]");
    FeedOne(s, '[');
    Opens(s);
    var begin := Scan(BeginValueOrEmpty, s.stack + [ArrayValue]);
    FeedAppend(begin, ItemsText(items), pad);
    if items == [] {
      FeedPad(begin, pad);
    } else {
      FeedItems(s.stack, items);
    }
    var t := Feed(begin, inside);
    FeedOne(t, ']');
    if items == [] { ClosesEmpty(s.stack); } else { Closes(t, s.stack, ArrayValue); }
  }

  lemma {:induction false} FeedItem(s: Scan, item: Item)
    requires GoodItem(item) && s.stack != [] && Fits(s, Depth(item.value))
    requires s.mode.BeginValue? || s.mode.BeginValueOrEmpty?
    ensures Ended(Feed(s, ItemText(item)), s.stack)
    decreases item.value, 2
  {
    FeedThree(s, item.before, Render(item.value), item.after);
    FeedPad(s, item.before);
    ValueStarts(item.value);
    if s.mode.BeginValueOrEmpty? { FeedFirstItem(s, Render(item.value)); }
    FeedValue(To(s, BeginValue), item.value);
    FeedPadEnded(Feed(s, Render(item.value)), s.stack, item.after);
  }

  lemma {:induction false} FeedMember(s: Scan, outer: seq<Place>, m: Member)
    requires GoodMember(m) && s.stack == outer + [ObjectKey] && Fits(s, Depth(m.item.value))
    requires s.mode.BeginString? || s.mode.BeginStringOrEmpty?
    ensures Ended(Feed(s, MemberText(m)), outer + [ObjectValue])
    decreases m.item.value, 3
  {
    var name := m.before + StringText(m.key) + m.mid;
    FeedAppend(s, name + ":", ItemText(m.item));
    FeedAppend(s, name, ":");
    FeedThree(s, m.before, StringText(m.key), m.mid);
    FeedPad(s, m.before);
    FeedString(s, m.key);
    FeedPad(To(s, EndValue), m.mid);
    FeedOne(To(s, EndValue), ':');
    assert s.stack[|s.stack| - 1 := ObjectValue] == outer + [ObjectValue];
    FeedItem(Scan(BeginValue, outer + [ObjectValue]), m.item);
  }

  /** After a comma the next entry begins. */
  lemma NextEntry(t: Scan, outer: seq<Place>, place: Place)
    requires place != ObjectKey && Ended(t, outer + [place])
    ensures Feed(t, ",") == if place.ArrayValue? then Scan(BeginValue, outer + [ArrayValue])
                            else Scan(BeginString, outer + [ObjectKey])
  {
    FeedOne(t, ',');
    AfterEnded(t, outer + [place], ',');
    assert (outer + [place])[|outer| := ObjectKey] == outer + [ObjectKey];
  }

  lemma {:induction false} FeedMembers(outer: seq<Place>, ms: seq<Member>)
    requires ms != [] && GoodMembers(ms) && |outer| + 1 + MembersDepth(ms) <= MAX_DEPTH
    ensures Ended(Feed(Scan(BeginStringOrEmpty, outer + [ObjectKey]), MembersText(ms)), outer + [ObjectValue])
    decreases ms, 0
  {
    var s, n := Scan(BeginStringOrEmpty, outer + [ObjectKey]), |ms| - 1;
    FeedThree(s, MembersText(ms[..n]), Comma(n), MemberText(ms[n]));
    if n == 0 {
      assert ms[..n] == [];
      FeedMember(s, outer, ms[n]);
    } else {
      FeedMembers(outer, ms[..n]);
      NextEntry(Feed(s, MembersText(ms[..n])), outer, ObjectValue);
      FeedMember(Scan(BeginString, outer + [ObjectKey]), outer, ms[n]);
    }
  }

  lemma {:induction false} FeedItems(outer: seq<Place>, items: seq<Item>)
    requires items != [] && GoodItems(items) && |outer| + 1 + ItemsDepth(items) <= MAX_DEPTH
    ensures Ended(Feed(Scan(BeginValueOrEmpty, outer + [ArrayValue]), ItemsText(items)), outer + [ArrayValue])
    decreases items, 0
  {
    var s, n := Scan(BeginValueOrEmpty, outer + [ArrayValue]), |items| - 1;
    FeedThree(s, ItemsText(items[..n]), Comma(n), ItemText(items[n]));
    if n == 0 {
      assert items[..n] == [];
      FeedItem(s, items[n]);
    } else {
      FeedItems(outer, items[..n]);
      NextEntry(Feed(s, ItemsText(items[..n])), outer, ArrayValue);
      FeedItem(Scan(BeginValue, outer + [ArrayValue]), items[n]);
    }
  }

  // ---- the theorem --------------------------------------------------------

  lemma ClosedRead(inside: Bytes, data: Bytes)
    requires data == inside + "}" && inside != [] && data[0] == '{'
    requires !Feed(START, inside).mode.Complete? && Feed(START, data).mode.Complete?
    ensures ExactObject(data)
  {
    assert data[..|data| - 1] == inside;
    ReadsFed(START, data, 0);
  }

  /** Every object of the grammar, written with any white space and escapes, is read exactly to its end. */
  lemma ObjectsAreRead(v: Value)
    requires GoodObject(v)
    ensures ExactObject(Render(v))
  {
    FeedObject(START, v.pad, v.members);
    ClosedRead("{" + MembersText(v.members) + v.pad, Render(v));
  }
}

/** Whatever the scanner accepts is an object of the grammar: each part of an accepted text is read back. */
module JsonSound {
  import opened Wrappers
  import opened Text
  import opened Json
  import opened JsonGrammar
  import opened JsonComplete

  /** The last byte, and no earlier one, completes the value. */
  predicate Completes(s: Scan, data: Bytes)
    decreases |data|
  {
    if s.mode.Complete? then data == [] else data != [] && Completes(Advance(s, data[0]), data[1..])
  }

  lemma {:induction false} NeverFails(s: Scan, data: Bytes)
    requires Completes(s, data)
    ensures !s.mode.Error?
    decreases |data|
  {
    if data != [] { NeverFails(Advance(s, data[0]), data[1..]); }
  }

  lemma {:induction false} ReadCompletes(s: Scan, data: Bytes, used: nat)
    requires ReadFrom(s, data, used) == Object(used + |data|)
    ensures Completes(s, data)
    decreases |data|
  {
    if !s.mode.Complete? { ReadCompletes(Advance(s, data[0]), data[1..], used + 1); }
  }

  /** One more byte of an accepted text. */
  lemma Next(s: Scan, data: Bytes)
    requires Completes(s, data) && !s.mode.Complete?
    ensures data != [] && Completes(Advance(s, data[0]), data[1..])
    ensures !Advance(s, data[0]).mode.Error? && data == [data[0]] + data[1..]
  {
    NeverFails(Advance(s, data[0]), data[1..]);
  }

  // ---- strings and white space --------------------------------------------

  lemma {:induction false} SpaceOf(s: Scan, data: Bytes) returns (pad: Bytes, rest: Bytes)
    requires SkipsSpace(s) && Completes(s, data)
    ensures AllJsonSpace(pad) && data == pad + rest
    ensures rest != [] && !JsonSpace(rest[0]) && Completes(s, rest)
    decreases |data|
  {
    Next(s, data);
    if JsonSpace(data[0]) {
      pad, rest := SpaceOf(s, data[1..]);
      pad := [data[0]] + pad;
    } else {
      pad, rest := [], data;
    }
  }

  lemma HexOf(s: Scan, left: nat, data: Bytes) returns (hex: Bytes, rest: Bytes)
    requires s.mode == InHex(left) && 1 <= left && Completes(s, data)
    ensures |hex| == left && (forall i :: 0 <= i < left ==> Hex(hex[i])) && data == hex + rest
    ensures Completes(To(s, InString), rest)
    decreases left
  {
    Next(s, data);
    if left == 1 {
      hex, rest := [data[0]], data[1..];
    } else {
      hex, rest := HexOf(To(s, InHex(left - 1)), left - 1, data[1..]);
      hex := [data[0]] + hex;
    }
  }

  /** What follows a backslash. */
  lemma EscapeOf(s: Scan, data: Bytes) returns (p: Piece, rest: Bytes)
    requires s.mode.InEscape? && Completes(s, data)
    ensures GoodPiece(p) && ['\\'] + data == PieceText(p) + rest && Completes(To(s, InString), rest)
    ensures |rest| < |data|
  {
    Next(s, data);
    if data[0] == 'u' {
      var hex;
      hex, rest := HexOf(To(s, InHex(4)), 4, data[1..]);
      p := Unicode(hex);
    } else {
      p, rest := Escape(data[0]), data[1..];
    }
  }

  lemma PieceOf(s: Scan, data: Bytes) returns (p: Piece, rest: Bytes)
    requires s.mode.InString? && Completes(s, data) && data != [] && data[0] != '"'
    ensures GoodPiece(p) && data == PieceText(p) + rest && Completes(s, rest) && |rest| < |data|
  {
    Next(s, data);
    if data[0] == '\\' {
      p, rest := EscapeOf(To(s, InEscape), data[1..]);
      assert To(To(s, InEscape), InString) == s;
    } else {
      p, rest := Raw(data[0]), data[1..];
    }
  }

  lemma MorePieces(done: seq<Piece>, p: Piece, data: Bytes, more: Bytes)
    requires data == PieceText(p) + more
    ensures PiecesText(done + [p]) + more == PiecesText(done) + data
  {
    assert (done + [p])[..|done|] == done;
  }

  lemma {:induction false} PiecesOf(s: Scan, done: seq<Piece>, data: Bytes) returns (ps: seq<Piece>, rest: Bytes)
    requires s.mode.InString? && Completes(s, data) && GoodString(done)
    ensures GoodString(ps) && PiecesText(done) + data == PiecesText(ps) + "\"" + rest
    ensures Completes(To(s, EndValue), rest) && |rest| < |data|
    decreases |data|
  {
    Next(s, data);
    if data[0] == '"' {
      ps, rest := done, data[1..];
    } else {
      var p, more := PieceOf(s, data);
      MorePieces(done, p, data, more);
      ps, rest := PiecesOf(s, done + [p], more);
    }
  }

  lemma Quoted(inside: Bytes, data: Bytes, rest: Bytes)
    requires data != [] && data[0] == '"' && data[1..] == inside + "\"" + rest
    ensures data == "\"" + inside + "\"" + rest
  {
    assert data == [data[0]] + data[1..];
  }

  lemma StringOf(s: Scan, data: Bytes) returns (text: seq<Piece>, rest: Bytes)
    requires s.mode.BeginValue? || s.mode.BeginString? || s.mode.BeginStringOrEmpty?
    requires Completes(s, data) && data != [] && data[0] == '"'
    ensures GoodString(text) && data == StringText(text) + rest && |rest| < |data|
    ensures Completes(To(s, EndValue), rest)
  {
    Next(s, data);
    text, rest := PiecesOf(To(s, InString), [], data[1..]);
    assert PiecesText([]) + data[1..] == data[1..];
    Quoted(PiecesText(text), data, rest);
  }

  // ---- numbers and words --------------------------------------------------

  predicate ReadsDigits(mode: Mode) { mode.Digits? || mode.Fraction? || mode.ExponentDigits? }

  lemma {:induction false} DigitsOf(s: Scan, data: Bytes) returns (ds: Bytes, rest: Bytes)
    requires ReadsDigits(s.mode) && Completes(s, data)
    ensures (forall i :: 0 <= i < |ds| ==> Digit(ds[i])) && data == ds + rest
    ensures rest != [] && !Digit(rest[0]) && Completes(s, rest)
    decreases |data|
  {
    Next(s, data);
    if Digit(data[0]) {
      ds, rest := DigitsOf(s, data[1..]);
      ds := [data[0]] + ds;
    } else {
      ds, rest := [], data;
    }
  }

  /** Digits of which at least one is demanded. */
  lemma SomeDigitsOf(s: Scan, data: Bytes, mode: Mode) returns (ds: Bytes, rest: Bytes)
    requires Completes(s, data) && data != [] && !s.mode.Complete? && Digit(data[0])
    requires ReadsDigits(mode) && Advance(s, data[0]) == To(s, mode)
    ensures AllDigits(ds) && ds[0] == data[0] && data == ds + rest
    ensures rest != [] && !Digit(rest[0]) && Completes(To(s, mode), rest) && |rest| < |data|
  {
    Next(s, data);
    ds, rest := DigitsOf(To(s, mode), data[1..]);
    ds := [data[0]] + ds;
  }

  lemma WholeOf(s: Scan, data: Bytes) returns (ds: Bytes, mode: Mode, rest: Bytes)
    requires (s.mode.BeginValue? || s.mode.Minus?) && Completes(s, data) && data != [] && Digit(data[0])
    ensures AllDigits(ds) && (ds[0] == '0' ==> |ds| == 1) && data == ds + rest && (mode.Zero? || mode.Digits?)
    ensures Completes(To(s, mode), rest) && |rest| < |data| && (mode.Digits? ==> rest != [] && !Digit(rest[0]))
  {
    if data[0] == '0' {
      Next(s, data);
      ds, mode, rest := [data[0]], Zero, data[1..];
    } else {
      mode := Digits;
      ds, rest := SomeDigitsOf(s, data, Digits);
    }
  }

  lemma FractionOf(s: Scan, data: Bytes) returns (ds: Bytes, rest: Bytes)
    requires (s.mode.Zero? || s.mode.Digits?) && Completes(s, data) && data != [] && data[0] == '.'
    ensures AllDigits(ds) && data == "." + ds + rest
    ensures rest != [] && !Digit(rest[0]) && Completes(To(s, Fraction), rest)
  {
    Next(s, data);
    Next(To(s, Dot), data[1..]);
    ds, rest := SomeDigitsOf(To(s, Dot), data[1..], Fraction);
  }

  lemma SignOf(s: Scan, data: Bytes) returns (sign: Bytes, t: Scan, rest: Bytes)
    requires s.mode == Json.Exponent && Completes(s, data)
    ensures (sign == [] || sign == "+" || sign == "-") && data == sign + rest
    ensures t.stack == s.stack && (t.mode == Json.Exponent || t.mode.ExponentSign?) && Completes(t, rest)
    ensures rest != [] && Digit(rest[0])
  {
    Next(s, data);
    if data[0] == '+' || data[0] == '-' {
      sign, t, rest := [data[0]], To(s, ExponentSign), data[1..];
      Next(t, rest);
    } else {
      sign, t, rest := [], s, data;
    }
  }

  lemma ThreeParts(data: Bytes, b: Bytes, c: Bytes, w: Bytes, x: Bytes, y: Bytes, rest: Bytes)
    requires data == w + b && b == x + c && c == y + rest
    ensures data == w + x + y + rest
  {
  }

  lemma ExponentOf(s: Scan, data: Bytes) returns (x: JsonGrammar.Exponent, rest: Bytes)
    requires (s.mode.Zero? || s.mode.Digits? || s.mode.Fraction?) && Completes(s, data)
    requires data != [] && (data[0] == 'e' || data[0] == 'E')
    ensures GoodExponent(x) && data == ExponentText(x) + rest
    ensures rest != [] && !Digit(rest[0]) && Completes(To(s, ExponentDigits), rest)
  {
    Next(s, data);
    var sign, t, more := SignOf(To(s, Json.Exponent), data[1..]);
    var digits;
    digits, rest := SomeDigitsOf(t, more, ExponentDigits);
    x := JsonGrammar.Exponent(data[0], sign, digits);
    ThreeParts(data, data[1..], more, [data[0]], sign, digits, rest);
  }

  /** A number is over at the first byte that does not belong to it. */
  lemma NumberEnds(t: Scan, data: Bytes)
    requires t.mode.Zero? || t.mode.Digits? || t.mode.Fraction? || t.mode.ExponentDigits?
    requires Completes(t, data) && data != []
    requires t.mode.Zero? || !Digit(data[0])
    requires (t.mode.Zero? || t.mode.Digits?) ==> data[0] != '.'
    requires !t.mode.ExponentDigits? ==> data[0] != 'e' && data[0] != 'E'
    ensures Completes(To(t, EndValue), data)
  {
    Next(t, data);
    assert Advance(t, data[0]) == AfterValue(t, data[0]);
    assert AfterValue(t, data[0]) == AfterValue(To(t, EndValue), data[0]);
  }

  lemma MinusOf(s: Scan, data: Bytes) returns (minus: bool, t: Scan, rest: Bytes)
    requires s.mode.BeginValue? && Completes(s, data) && data != [] && (data[0] == '-' || Digit(data[0]))
    ensures data == (if minus then "-" else []) + rest && |rest| <= |data|
    ensures t.stack == s.stack && (t.mode.BeginValue? || t.mode.Minus?) && Completes(t, rest)
    ensures rest != [] && Digit(rest[0])
  {
    minus, t, rest := data[0] == '-', s, data;
    if minus {
      Next(s, data);
      t, rest := To(s, Minus), data[1..];
      Next(t, rest);
    }
  }

  lemma FractionPartOf(s: Scan, data: Bytes) returns (fraction: Option<Bytes>, t: Scan, rest: Bytes)
    requires (s.mode.Zero? || s.mode.Digits?) && Completes(s, data)
    requires s.mode.Digits? ==> data != [] && !Digit(data[0])
    ensures fraction.Some? ==> AllDigits(fraction.value)
    ensures data == (if fraction.Some? then "." + fraction.value else []) + rest
    ensures t.stack == s.stack && Completes(t, rest) && rest != []
    ensures t.mode.Zero? || ((t.mode.Digits? || t.mode.Fraction?) && !Digit(rest[0]))
    ensures !t.mode.Fraction? ==> rest[0] != '.'
  {
    Next(s, data);
    fraction, t, rest := None, s, data;
    if data[0] == '.' {
      var ds;
      ds, rest := FractionOf(s, data);
      fraction, t := Some(ds), To(s, Fraction);
    }
  }

  lemma PowerPartOf(s: Scan, data: Bytes) returns (power: Option<JsonGrammar.Exponent>, rest: Bytes)
    requires s.mode.Zero? || s.mode.Digits? || s.mode.Fraction?
    requires Completes(s, data) && data != [] && (s.mode.Zero? || !Digit(data[0]))
    requires !s.mode.Fraction? ==> data[0] != '.'
    ensures power.Some? ==> GoodExponent(power.value)
    ensures data == (if power.Some? then ExponentText(power.value) else []) + rest
    ensures Completes(To(s, EndValue), rest)
  {
    power, rest := None, data;
    if data[0] == 'e' || data[0] == 'E' {
      var x;
      x, rest := ExponentOf(s, data);
      power := Some(x);
      NumberEnds(To(s, ExponentDigits), rest);
    } else {
      NumberEnds(s, data);
    }
  }

  lemma FourParts(data: Bytes, b: Bytes, c: Bytes, d: Bytes, w: Bytes, x: Bytes, y: Bytes, z: Bytes, rest: Bytes)
    requires data == w + b && b == x + c && c == y + d && d == z + rest
    ensures data == w + x + y + z + rest
  {
    ThreeParts(data, b, c, w, x, y, d);
  }

  lemma NumberOf(s: Scan, data: Bytes) returns (n: Number, rest: Bytes)
    requires s.mode.BeginValue? && Completes(s, data) && data != [] && (data[0] == '-' || Digit(data[0]))
    ensures GoodNumber(n) && data == NumberText(n) + rest && Completes(To(s, EndValue), rest) && |rest| < |data|
  {
    var minus, t, more := MinusOf(s, data);
    var whole, mode, left := WholeOf(t, more);
    var fraction, u, tail := FractionPartOf(To(t, mode), left);
    var power;
    power, rest := PowerPartOf(u, tail);
    n := Number(minus, whole, fraction, power);
    var sign := if minus then "-" else [];
    var point := if fraction.Some? then "." + fraction.value else [];
    FourParts(data, more, left, tail, sign, whole, point, if power.Some? then ExponentText(power.value) else [], rest);
    assert To(u, EndValue) == To(s, EndValue);
  }

  lemma {:induction false} WordOf(s: Scan, word: Bytes, data: Bytes) returns (rest: Bytes)
    requires s.mode == Word(word) && word != [] && Completes(s, data)
    ensures data == word + rest && Completes(To(s, EndValue), rest)
    decreases |word|
  {
    Next(s, data);
    if |word| == 1 {
      rest := data[1..];
    } else {
      rest := WordOf(To(s, Word(word[1..])), word[1..], data[1..]);
    }
  }

  lemma LiteralOf(s: Scan, data: Bytes) returns (word: Bytes, rest: Bytes)
    requires s.mode.BeginValue? && Completes(s, data) && data != []
    requires data[0] == 't' || data[0] == 'f' || data[0] == 'n'
    ensures word == "true" || word == "false" || word == "null"
    ensures data == word + rest && Completes(To(s, EndValue), rest) && |rest| < |data|
  {
    Next(s, data);
    var tail := if data[0] == 't' then "rue" else if data[0] == 'f' then "alse" else "ull";
    rest := WordOf(To(s, Word(tail)), tail, data[1..]);
    word := [data[0]] + tail;
  }

  // ---- values -------------------------------------------------------------

  /** Room for what is nested in a value that may begin here. */
  predicate Room(s: Scan) { |s.stack| <= MAX_DEPTH }

  lemma {:induction false} ValueOf(s: Scan, data: Bytes) returns (v: Value, rest: Bytes)
    requires s.mode.BeginValue? && s.stack != [] && Room(s)
    requires Completes(s, data) && data != [] && !JsonSpace(data[0])
    ensures Good(v) && Fits(s, Depth(v)) && data == Render(v) + rest && |rest| < |data|
    ensures Completes(To(s, EndValue), rest)
    decreases |data|, 1
  {
    Next(s, data);
    var c := data[0];
    if c == '{' {
      v, rest := ObjectOf(s, data);
    } else if c == '[' {
      v, rest := ArrayOf(s, data);
    } else if c == '"' {
      var text;
      text, rest := StringOf(s, data);
      v := Str(text);
    } else if c == '-' || Digit(c) {
      var n;
      n, rest := NumberOf(s, data);
      v := Num(n);
    } else {
      var word;
      word, rest := LiteralOf(s, data);
      v := Literal(word);
    }
  }

  /** After an entry: white space, and then the comma or the closing bracket. */
  lemma {:induction false} ItemOf(s: Scan, data: Bytes) returns (item: Item, rest: Bytes)
    requires s.mode.BeginValue? && s.stack != [] && Room(s) && Completes(s, data)
    ensures GoodItem(item) && Fits(s, Depth(item.value)) && data == ItemText(item) + rest && |rest| < |data|
    ensures rest != [] && !JsonSpace(rest[0]) && Completes(To(s, EndValue), rest)
    decreases |data|, 2
  {
    var before, more := SpaceOf(s, data);
    var v, left := ValueOf(s, more);
    var after;
    after, rest := SpaceOf(To(s, EndValue), left);
    item := Item(before, v, after);
  }

  /** A member, where its name may begin. */
  lemma {:induction false} MemberOf(outer: seq<Place>, data: Bytes) returns (m: Member, rest: Bytes)
    requires |outer| < MAX_DEPTH && Completes(Scan(BeginString, outer + [ObjectKey]), data)
    ensures GoodMember(m) && |outer| + 1 + Depth(m.item.value) <= MAX_DEPTH
    ensures data == MemberText(m) + rest && |rest| < |data|
    ensures rest != [] && !JsonSpace(rest[0]) && Completes(Scan(EndValue, outer + [ObjectValue]), rest)
    decreases |data|, 3
  {
    var s := Scan(BeginString, outer + [ObjectKey]);
    var before, a := SpaceOf(s, data);
    Next(s, a);
    var key, b := StringOf(s, a);
    var mid, c := SpaceOf(To(s, EndValue), b);
    Next(To(s, EndValue), c);
    assert (outer + [ObjectKey])[|outer| := ObjectValue] == outer + [ObjectValue];
    var item;
    item, rest := ItemOf(Scan(BeginValue, outer + [ObjectValue]), c[1..]);
    m := Member(before, key, mid, item);
    MemberParts(m, data, a, b, c, rest);
  }

  lemma MemberParts(m: Member, data: Bytes, a: Bytes, b: Bytes, c: Bytes, rest: Bytes)
    requires data == m.before + a && a == StringText(m.key) + b && b == m.mid + c
    requires c != [] && c[0] == ':' && c[1..] == ItemText(m.item) + rest
    ensures data == MemberText(m) + rest
  {
    assert c == ":" + (ItemText(m.item) + rest);
  }

  /** The state after a value has been popped. */
  function Popped(outer: seq<Place>): Scan {
    Scan(if outer == [] then Complete else EndValue, outer)
  }

  lemma AfterMember(outer: seq<Place>, more: Bytes)
    requires Completes(Scan(EndValue, outer + [ObjectValue]), more) && more != [] && !JsonSpace(more[0])
    ensures more[0] == ',' || more[0] == '}'
    ensures more[0] == ',' ==> Completes(Scan(BeginString, outer + [ObjectKey]), more[1..])
    ensures more[0] == '}' ==> Completes(Popped(outer), more[1..])
  {
    var s := Scan(EndValue, outer + [ObjectValue]);
    Next(s, more);
    if more[0] == ',' {
      assert (outer + [ObjectValue])[|outer| := ObjectKey] == outer + [ObjectKey];
    } else {
      PopOff(s, outer, ObjectValue);
    }
  }

  lemma Regroup(a: Bytes, b: Bytes, entry: Bytes, data: Bytes, more: Bytes)
    requires data == entry + more && more != []
    ensures a + b + data == a + b + entry + [more[0]] + more[1..]
  {
    assert more == [more[0]] + more[1..];
  }

  lemma OneMoreMember(done: seq<Member>, m: Member, entry: Bytes)
    requires entry == MemberText(m) && GoodMember(m) && GoodMembers(done)
    ensures GoodMembers(done + [m])
    ensures MembersDepth(done + [m]) == Max(MembersDepth(done), Depth(m.item.value))
    ensures MembersText(done + [m]) == MembersText(done) + Comma(|done|) + entry
  {
    assert (done + [m])[..|done|] == done && (done + [m])[|done|] == m;
  }

  lemma MoreMembers(outer: seq<Place>, done: seq<Member>, m: Member, data: Bytes, more: Bytes)
    requires data == MemberText(m) + more && more != [] && GoodMember(m) && GoodMembers(done)
    requires |outer| + 1 + MembersDepth(done) <= MAX_DEPTH && |outer| + 1 + Depth(m.item.value) <= MAX_DEPTH
    ensures GoodMembers(done + [m]) && |outer| + 1 + MembersDepth(done + [m]) <= MAX_DEPTH
    ensures MembersText(done) + Comma(|done|) + data == MembersText(done + [m]) + [more[0]] + more[1..]
  {
    var entry, text := MemberText(m), MembersText(done);
    OneMoreMember(done, m, entry);
    Regroup(text, Comma(|done|), entry, data, more);
  }

  lemma OneMoreItem(done: seq<Item>, item: Item, entry: Bytes)
    requires entry == ItemText(item) && GoodItem(item) && GoodItems(done)
    ensures GoodItems(done + [item])
    ensures ItemsDepth(done + [item]) == Max(ItemsDepth(done), Depth(item.value))
    ensures ItemsText(done + [item]) == ItemsText(done) + Comma(|done|) + entry
  {
    assert (done + [item])[..|done|] == done && (done + [item])[|done|] == item;
  }

  lemma AfterItem(outer: seq<Place>, more: Bytes)
    requires Completes(Scan(EndValue, outer + [ArrayValue]), more) && more != [] && !JsonSpace(more[0])
    ensures more[0] == ',' || more[0] == ']'
    ensures more[0] == ',' ==> Completes(Scan(BeginValue, outer + [ArrayValue]), more[1..])
    ensures more[0] == ']' ==> Completes(Popped(outer), more[1..])
  {
    var s := Scan(EndValue, outer + [ArrayValue]);
    Next(s, more);
    PopOff(s, outer, ArrayValue);
  }

  lemma MoreItems(outer: seq<Place>, done: seq<Item>, item: Item, data: Bytes, more: Bytes)
    requires data == ItemText(item) + more && more != [] && GoodItem(item) && GoodItems(done)
    requires |outer| + 1 + ItemsDepth(done) <= MAX_DEPTH && |outer| + 1 + Depth(item.value) <= MAX_DEPTH
    ensures GoodItems(done + [item]) && |outer| + 1 + ItemsDepth(done + [item]) <= MAX_DEPTH
    ensures ItemsText(done) + Comma(|done|) + data == ItemsText(done + [item]) + [more[0]] + more[1..]
  {
    var entry, text := ItemText(item), ItemsText(done);
    OneMoreItem(done, item, entry);
    Regroup(text, Comma(|done|), entry, data, more);
  }

  /** The members from one on, after those already read. */
  lemma {:induction false} MembersOf(outer: seq<Place>, done: seq<Member>, data: Bytes)
      returns (ms: seq<Member>, rest: Bytes)
    requires |outer| < MAX_DEPTH && Completes(Scan(BeginString, outer + [ObjectKey]), data)
    requires GoodMembers(done) && |outer| + 1 + MembersDepth(done) <= MAX_DEPTH
    ensures ms != [] && GoodMembers(ms) && |outer| + 1 + MembersDepth(ms) <= MAX_DEPTH
    ensures MembersText(done) + Comma(|done|) + data == MembersText(ms) + "}" + rest
    ensures Completes(Popped(outer), rest) && |rest| < |data|
    decreases |data|, 4
  {
    var m, more := MemberOf(outer, data);
    AfterMember(outer, more);
    MoreMembers(outer, done, m, data, more);
    if more[0] == ',' {
      ms, rest := MembersOf(outer, done + [m], more[1..]);
    } else {
      ms, rest := done + [m], more[1..];
    }
  }

  lemma {:induction false} PadBack(s: Scan, pad: Bytes, more: Bytes)
    requires SkipsSpace(s) && AllJsonSpace(pad) && Completes(s, more)
    ensures Completes(s, pad + more)
    decreases |pad|
  {
    if pad != [] {
      assert (pad + more)[1..] == pad[1..] + more;
      PadBack(s, pad[1..], more);
    } else {
      assert pad + more == more;
    }
  }

  /** Behind the opening brace: the closing one, or the first member's name. */
  lemma ObjectBegins(outer: seq<Place>, data: Bytes) returns (pad: Bytes, more: Bytes)
    requires Completes(Scan(BeginStringOrEmpty, outer + [ObjectKey]), data)
    ensures AllJsonSpace(pad) && data == pad + more && more != []
    ensures more[0] == '}' ==> Completes(Popped(outer), more[1..])
    ensures more[0] != '}' ==> Completes(Scan(BeginString, outer + [ObjectKey]), data)
  {
    var s := Scan(BeginStringOrEmpty, outer + [ObjectKey]);
    pad, more := SpaceOf(s, data);
    Next(s, more);
    if more[0] == '}' { ClosesEmpty(outer); } else { PadBack(To(s, BeginString), pad, more); }
  }

  /** Behind the opening bracket: the closing one, or the first item. */
  lemma ArrayBegins(outer: seq<Place>, data: Bytes) returns (pad: Bytes, more: Bytes)
    requires Completes(Scan(BeginValueOrEmpty, outer + [ArrayValue]), data)
    ensures AllJsonSpace(pad) && data == pad + more && more != []
    ensures more[0] == ']' ==> Completes(Popped(outer), more[1..])
    ensures more[0] != ']' ==> Completes(Scan(BeginValue, outer + [ArrayValue]), data)
  {
    var s := Scan(BeginValueOrEmpty, outer + [ArrayValue]);
    pad, more := SpaceOf(s, data);
    Next(s, more);
    if more[0] == ']' { ClosesEmpty(outer); } else { PadBack(To(s, BeginValue), pad, more); }
  }

  lemma Enclosed(open: char, inside: Bytes, close: char, data: Bytes, rest: Bytes)
    requires data != [] && data[0] == open && data[1..] == inside + [close] + rest
    ensures data == [open] + inside + [] + [close] + rest && data == [open] + [] + inside + [close] + rest
  {
  }

  lemma {:induction false} ObjectOf(s: Scan, data: Bytes) returns (v: Value, rest: Bytes)
    requires s.mode.BeginValue? && Completes(s, data) && data != [] && data[0] == '{'
    ensures v.Obj? && Good(v) && Fits(s, Depth(v)) && data == Render(v) + rest && |rest| < |data|
    ensures Completes(Popped(s.stack), rest)
    decreases |data|, 0
  {
    Next(s, data);
    var pad, more := ObjectBegins(s.stack, data[1..]);
    if more[0] == '}' {
      v, rest := Obj(pad, []), more[1..];
      Enclosed('{', pad, '}', data, rest);
    } else {
      var ms;
      ms, rest := MembersOf(s.stack, [], data[1..]);
      v := Obj([], ms);
      Enclosed('{', MembersText(ms), '}', data, rest);
    }
  }

  lemma {:induction false} ItemsOf(outer: seq<Place>, done: seq<Item>, data: Bytes)
      returns (items: seq<Item>, rest: Bytes)
    requires |outer| < MAX_DEPTH && Completes(Scan(BeginValue, outer + [ArrayValue]), data)
    requires GoodItems(done) && |outer| + 1 + ItemsDepth(done) <= MAX_DEPTH
    ensures items != [] && GoodItems(items) && |outer| + 1 + ItemsDepth(items) <= MAX_DEPTH
    ensures ItemsText(done) + Comma(|done|) + data == ItemsText(items) + "]" + rest
    ensures Completes(Popped(outer), rest) && |rest| < |data|
    decreases |data|, 4
  {
    var s := Scan(BeginValue, outer + [ArrayValue]);
    var item, more := ItemOf(s, data);
    AfterItem(outer, more);
    MoreItems(outer, done, item, data, more);
    if more[0] == ',' {
      items, rest := ItemsOf(outer, done + [item], more[1..]);
    } else {
      items, rest := done + [item], more[1..];
    }
  }

  lemma {:induction false} ArrayOf(s: Scan, data: Bytes) returns (v: Value, rest: Bytes)
    requires s.mode.BeginValue? && Completes(s, data) && data != [] && data[0] == '['
    ensures v.Arr? && Good(v) && Fits(s, Depth(v)) && data == Render(v) + rest && |rest| < |data|
    ensures Completes(Popped(s.stack), rest)
    decreases |data|, 0
  {
    Next(s, data);
    var pad, more := ArrayBegins(s.stack, data[1..]);
    if more[0] == ']' {
      v, rest := Arr(pad, []), more[1..];
      Enclosed('[', pad, ']', data, rest);
    } else {
      var items;
      items, rest := ItemsOf(s.stack, [], data[1..]);
      v := Arr([], items);
      Enclosed('[', ItemsText(items), ']', data, rest);
    }
  }

  // ---- the theorem --------------------------------------------------------

  /** An accepted text is an object of the grammar. */
  lemma OnlyObjectsAreRead(data: Bytes) returns (v: Value)
    requires ExactObject(data)
    ensures GoodObject(v) && Render(v) == data
  {
    ReadCompletes(START, data, 0);
    var rest;
    v, rest := ObjectOf(START, data);
  }

  /** The scanner accepts exactly the objects of the grammar. */
  lemma ScannerIsTheGrammar(data: Bytes)
    ensures ExactObject(data) <==> exists v: Value :: GoodObject(v) && Render(v) == data
  {
    if ExactObject(data) { var v := OnlyObjectsAreRead(data); }
    forall v: Value | GoodObject(v) && Render(v) == data ensures ExactObject(data) { ObjectsAreRead(v); }
  }
}
