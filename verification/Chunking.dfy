/**
 However the host cuts the first event into chunks, the reader holds exactly the chunks up to the end of the event's
 JSON object, or up to the size limit if that comes first. The verdict is the one of the whole event, unless the event
 reports a failure and its last chunk reaches the limit.
 */
module Chunking {
  import opened Wrappers
  import opened Text
  import opened StreamStartup
  import opened Collections
  import Json

  /** An event line: "event:", a text without a newline, the newline, and any white space after it. */
  datatype Line = Line(text: Bytes, pad: Bytes)

  /** The first event: event lines, an optional "data:" with white space after it, and a JSON object. */
  datatype FirstEvent = FirstEvent(lines: seq<Line>, data: Option<Bytes>, obj: Bytes)

  predicate WellFormed(w: FirstEvent) {
    && (forall i :: 0 <= i < |w.lines| ==> WellFormedLine(w.lines[i]))
    && (w.data.Some? ==> AllSpace(w.data.value))
    && Json.ExactObject(w.obj)
  }

  predicate WellFormedLine(l: Line) {
    '\n' !in l.text && AllSpace(l.pad)
  }

  function LineText(l: Line): Bytes { "event:" + l.text }

  function LineBytes(l: Line): Bytes { LineText(l) + "\n" + l.pad }

  function Field(w: FirstEvent): Bytes {
    (if w.data.Some? then "data:" + w.data.value else []) + w.obj
  }

  function Tail(w: FirstEvent): FirstEvent
    requires w.lines != []
  {
    w.(lines := w.lines[1..])
  }

  /** The bytes of the event, up to the last byte of its object. */
  function Wire(w: FirstEvent): Bytes
    decreases |w.lines|
  {
    if w.lines == [] then Field(w) else LineBytes(w.lines[0]) + Wire(Tail(w))
  }

  /** The first m bytes end in an event line whose text is blank. */
  predicate InBlankEvent(w: FirstEvent, m: nat)
    decreases |w.lines|
  {
    w.lines != [] &&
    if m <= |LineBytes(w.lines[0])| then AllSpace(w.lines[0].text)
    else InBlankEvent(Tail(w), m - |LineBytes(w.lines[0])|)
  }

  // ---- trimming and cutting -----------------------------------------------

  /** Trimming a text whose last part survives touches only that part. */
  lemma TrimRightTail(a: Bytes, x: Bytes)
    requires TrimRight(x) != [] || (a != [] && !IsSpace(a[|a| - 1]))
    ensures TrimRight(a + x) == a + TrimRight(x)
  {
    var core := TrimRight(x);
    var tail := TrimRightShape(x);
    Regroup(a, core, tail);
    TrimRightPad(a + core, tail);
    TrimRightDone(a, core);
  }

  lemma TrimRightDone(a: Bytes, b: Bytes)
    requires if b != [] then !IsSpace(b[|b| - 1]) else a != [] && !IsSpace(a[|a| - 1])
    ensures TrimRight(a + b) == a + b
  {
    assert (a + b)[|a + b| - 1] == if b != [] then b[|b| - 1] else a[|a| - 1];
  }

  /** A text that starts with a visible byte is trimmed on the right only, and keeps that byte. */
  lemma TrimVisible(s: Bytes)
    requires s != [] && !IsSpace(s[0])
    ensures TrimSpace(s) == TrimRight(s) && TrimRight(s) != [] && TrimRight(s) <= s && TrimRight(s)[0] == s[0]
  {
    var tail := TrimRightShape(s);
    assert TrimRight(s) + tail == s && AllSpace(tail);
  }

  /** Surrounding white space, already trimmed or not, makes no difference. */
  lemma TrimAgain(pad: Bytes, x: Bytes)
    requires AllSpace(pad)
    ensures TrimSpace(pad + TrimRight(x)) == TrimSpace(x)
  {
    var tail := TrimRightShape(x);
    TrimSpacePads(pad, TrimRight(x), []);
    TrimSpacePads([], TrimRight(x), tail);
    assert pad + TrimRight(x) + [] == pad + TrimRight(x);
    assert [] + TrimRight(x) + tail == x;
  }

  lemma {:induction false} NewlineAt(a: Bytes, b: Bytes)
    requires '\n' !in a
    ensures Newline(a) == -1 && Newline(a + "\n" + b) == |a|
  {
    if a == [] {
      assert a + "\n" + b == "\n" + b;
    } else {
      assert (a + "\n" + b)[1..] == a[1..] + "\n" + b;
      NewlineAt(a[1..], b);
    }
  }

  lemma WireStartsVisible(w: FirstEvent)
    requires WellFormed(w)
    ensures Wire(w) != [] && !IsSpace(Wire(w)[0])
  {
    if w.lines != [] {
      assert Wire(w)[0] == LineBytes(w.lines[0])[0] == 'e';
    } else if w.data.Some? {
      assert Field(w)[0] == 'd';
    }
  }

  // ---- proper prefixes ----------------------------------------------------

  /** The inspector's verdict, from the trimmed data on. */
  function Seen(d: Decoder, data: Bytes, ended: bool): Inspection {
    match ReadHead(data, ended)
    case Undecided(pending) => Inspection(pending, None)
    case Body(rest) => InspectData(d, rest, false, ended)
  }

  /** An unfinished object keeps the inspector waiting until a blank line ends the frame. */
  lemma OpenObject(d: Decoder, obj: Bytes, m: nat, ended: bool)
    requires Json.ExactObject(obj) && 0 < m < |obj|
    ensures TrimSpace(obj[..m]) != [] && TrimSpace(obj[..m])[0] == '{'
    ensures InspectData(d, TrimSpace(obj[..m]), false, ended) == Inspection(!ended, None)
  {
    TrimVisible(obj[..m]);
    var t := TrimSpace(obj[..m]);
    assert t == obj[..|t|];
    Json.PrefixesAreOpen(Json.START, obj, 0, |t|);
  }

  lemma FieldPrefix(d: Decoder, w: FirstEvent, m: nat, ended: bool)
    requires WellFormed(w) && w.lines == [] && 0 < m < |Field(w)|
    requires ended ==> Field(w)[m - 1] == '\n'
    ensures Seen(d, TrimSpace(Field(w)[..m]), ended) == Inspection(!ended, None)
  {
    var p := Field(w)[..m];
    if w.data.None? {
      assert p == w.obj[..m];
      OpenObject(d, w.obj, m, ended);
    } else if m < 5 {
      assert p == "data:"[..m];
      assert p[m - 1] == "data:"[m - 1];
      TrimVisible(p);
      assert TrimRight(p) == p;
    } else {
      DataPrefix(d, w, m, ended);
    }
  }

  /** A data field hands its trimmed content on. */
  lemma DataBody(x: Bytes, ended: bool)
    ensures ReadHead(TrimSpace("data:" + x), ended) == Body(TrimSpace(x))
  {
    assert ("data:" + x)[0] == 'd';
    TrimVisible("data:" + x);
    TrimRightTail("data:", x);
    var t := "data:" + TrimRight(x);
    assert t[..5] == "data:" && t[5..] == TrimRight(x);
    TrimAgain([], x);
    assert [] + TrimRight(x) == TrimRight(x);
  }

  lemma DataPrefix(d: Decoder, w: FirstEvent, m: nat, ended: bool)
    requires WellFormed(w) && w.lines == [] && w.data.Some? && 5 <= m < |Field(w)|
    ensures Seen(d, TrimSpace(Field(w)[..m]), ended) == Inspection(!ended, None)
  {
    var pad := w.data.value;
    var x := (pad + w.obj)[..m - 5];
    assert Field(w) == "data:" + (pad + w.obj);
    assert Field(w)[..m] == "data:" + x;
    DataBody(x, ended);
    if m - 5 <= |pad| {
      assert x == pad[..m - 5];
      TrimAllSpace(x);
    } else {
      var j := m - 5 - |pad|;
      assert x == pad + w.obj[..j] + [];
      TrimSpacePads(pad, w.obj[..j], []);
      OpenObject(d, w.obj, j, ended);
    }
  }

  /** Cut inside an event line or the white space after it. */
  lemma LinePrefix(l: Line, m: nat, ended: bool)
    requires WellFormedLine(l) && 0 < m <= |LineBytes(l)|
    requires ended ==> LineBytes(l)[m - 1] == '\n'
    ensures ReadHead(TrimSpace(LineBytes(l)[..m]), ended) == Undecided(AllSpace(l.text) || !ended)
  {
    var h, p := LineText(l), LineBytes(l)[..m];
    assert p[0] == 'e';
    TrimVisible(p);
    if m <= |h| {
      assert p == h[..m];
      assert p[m - 1] == h[m - 1] && '\n' !in h;
      assert TrimSpace(p) <= p <= h;
      TextPrefix(l, TrimSpace(p), ended);
    } else {
      assert p == h + ("\n" + l.pad)[..m - |h|];
      TrimPastText(l, ("\n" + l.pad)[..m - |h|]);
      TextPrefix(l, TrimSpace(p), ended);
    }
  }

  /** Past its text a line is trimmed back to its visible part. */
  lemma TrimPastText(l: Line, rest: Bytes)
    requires AllSpace(rest)
    ensures TrimSpace(LineText(l) + rest) == "event:" + TrimRight(l.text) <= LineText(l)
    ensures TrimRight(l.text) == [] <==> AllSpace(l.text)
  {
    var h := LineText(l);
    assert (h + rest)[0] == 'e';
    TrimVisible(h + rest);
    TrimRightPad(h, rest);
    TrimRightTail("event:", l.text);
    var tail := TrimRightShape(l.text);
    assert h == ("event:" + TrimRight(l.text)) + tail;
    if AllSpace(l.text) {
      TrimAllSpace(l.text);
    } else {
      VisibleText(l.text);
    }
  }

  lemma VisibleText(s: Bytes)
    requires !AllSpace(s)
    ensures TrimRight(s) != []
  {
    var tail := TrimRightShape(s);
  }

  lemma TextPrefix(l: Line, t: Bytes, ended: bool)
    requires WellFormedLine(l) && t != [] && t <= LineText(l)
    ensures ReadHead(t, ended) == Undecided(|t| <= 6 || !ended)
  {
    assert t[0] == 'e';
    assert '\n' !in t;
    NewlineAt(t, []);
    if |t| <= 6 {
      assert t == "event:"[..|t|];
    } else {
      assert t[..6] == "event:";
    }
  }

  /** Cut after a whole event line: what is left decides. */
  lemma SkipsLine(l: Line, rest: Bytes, ended: bool)
    requires WellFormedLine(l) && rest != [] && !IsSpace(rest[0])
    ensures ReadHead(TrimSpace(LineBytes(l) + rest), ended) == ReadHead(TrimSpace(rest), ended)
  {
    TrimVisible(rest);
    TrimmedLine(l, rest);
    var h, after := LineText(l), l.pad + TrimRight(rest);
    var t := h + "\n" + after;
    assert '\n' !in h;
    NewlineAt(h, after);
    assert t[|h| + 1..] == after;
    TrimAgain(l.pad, rest);
    assert t[..6] == "event:" && |t| > 6;
  }

  lemma TrimmedLine(l: Line, rest: Bytes)
    requires WellFormedLine(l) && TrimRight(rest) != []
    ensures TrimSpace(LineBytes(l) + rest) == LineText(l) + "\n" + (l.pad + TrimRight(rest))
  {
    assert (LineBytes(l) + rest)[0] == 'e';
    TrimVisible(LineBytes(l) + rest);
    TrimRightTail(LineBytes(l), rest);
    assert LineBytes(l) + TrimRight(rest) == LineText(l) + "\n" + (l.pad + TrimRight(rest));
  }

  /** `look` is the inspector's verdict as a function of the payload alone. */
  ghost predicate IsLook(look: Bytes -> Inspection, d: Decoder, ended: bool) {
    forall p :: look(p) == Seen(d, TrimSpace(p), ended)
  }

  /** After m bytes the inspector waits, unless a blank line ended the frame outside a blank event line. */
  predicate Waits(look: Bytes -> Inspection, w: FirstEvent, m: nat, ended: bool)
    requires m <= |Wire(w)|
  {
    look(Wire(w)[..m]) == Inspection(InBlankEvent(w, m) || !ended, None)
  }

  predicate WaitsInField(look: Bytes -> Inspection, w: FirstEvent, m: nat, ended: bool)
    requires m <= |Field(w)|
  {
    look(Field(w)[..m]) == Inspection(!ended, None)
  }

  predicate WaitsInLine(look: Bytes -> Inspection, l: Line, m: nat, ended: bool)
    requires m <= |LineBytes(l)|
  {
    look(LineBytes(l)[..m]) == Inspection(AllSpace(l.text) || !ended, None)
  }

  predicate PassesLine(look: Bytes -> Inspection, l: Line, rest: Bytes) {
    look(LineBytes(l) + rest) == look(rest)
  }

  /** A cut inside the data field, or inside an event line, that a blank line may have ended. */
  predicate CutsField(w: FirstEvent, m: nat, ended: bool) {
    WellFormed(w) && w.lines == [] && 0 < m < |Field(w)| && (ended ==> Field(w)[m - 1] == '\n')
  }

  predicate CutsLine(l: Line, m: nat, ended: bool) {
    WellFormedLine(l) && 0 < m <= |LineBytes(l)| && (ended ==> LineBytes(l)[m - 1] == '\n')
  }

  predicate FollowsLine(l: Line, rest: Bytes) {
    WellFormedLine(l) && rest != [] && !IsSpace(rest[0])
  }

  /** What waiting on every proper prefix comes down to: fields, lines, and what follows a line. */
  ghost predicate Patient(look: Bytes -> Inspection, ended: bool) {
    && (forall w, m: nat :: CutsField(w, m, ended) ==> WaitsInField(look, w, m, ended))
    && (forall l, m: nat :: CutsLine(l, m, ended) ==> WaitsInLine(look, l, m, ended))
    && (forall l, rest :: FollowsLine(l, rest) ==> PassesLine(look, l, rest))
  }

  lemma LookInField(look: Bytes -> Inspection, d: Decoder, ended: bool, w: FirstEvent, m: nat)
    requires IsLook(look, d, ended) && CutsField(w, m, ended)
    ensures WaitsInField(look, w, m, ended)
  {
    FieldPrefix(d, w, m, ended);
  }

  lemma LookInLine(look: Bytes -> Inspection, d: Decoder, ended: bool, l: Line, m: nat)
    requires IsLook(look, d, ended) && CutsLine(l, m, ended)
    ensures WaitsInLine(look, l, m, ended)
  {
    LinePrefix(l, m, ended);
  }

  lemma LookPastLine(look: Bytes -> Inspection, d: Decoder, ended: bool, l: Line, rest: Bytes)
    requires IsLook(look, d, ended) && FollowsLine(l, rest)
    ensures PassesLine(look, l, rest)
  {
    SkipsLine(l, rest, ended);
  }

  lemma LookIsPatient(look: Bytes -> Inspection, d: Decoder, ended: bool)
    requires IsLook(look, d, ended)
    ensures Patient(look, ended)
  {
    forall w, m: nat | CutsField(w, m, ended) ensures WaitsInField(look, w, m, ended) {
      LookInField(look, d, ended, w, m);
    }
    forall l, m: nat | CutsLine(l, m, ended) ensures WaitsInLine(look, l, m, ended) {
      LookInLine(look, d, ended, l, m);
    }
    forall l, rest | FollowsLine(l, rest) ensures PassesLine(look, l, rest) {
      LookPastLine(look, d, ended, l, rest);
    }
  }

  lemma {:induction false} PrefixWaits(look: Bytes -> Inspection, w: FirstEvent, m: nat, ended: bool)
    requires Patient(look, ended) && WellFormed(w) && 0 < m < |Wire(w)|
    requires ended ==> Wire(w)[m - 1] == '\n'
    ensures Waits(look, w, m, ended)
    decreases |w.lines|
  {
    if w.lines == [] {
      assert CutsField(w, m, ended);
    } else if m <= |LineBytes(w.lines[0])| {
      assert Wire(w)[..m] == LineBytes(w.lines[0])[..m];
      assert CutsLine(w.lines[0], m, ended);
    } else {
      TailByte(w, m - 1);
      PrefixWaits(look, Tail(w), m - |LineBytes(w.lines[0])|, ended);
      WireStartsVisible(Tail(w));
      assert FollowsLine(w.lines[0], Wire(Tail(w))[..m - |LineBytes(w.lines[0])|]);
      PastLineWaits(look, w, m, ended);
    }
  }

  lemma TailByte(w: FirstEvent, i: nat)
    requires w.lines != [] && |LineBytes(w.lines[0])| <= i < |Wire(w)|
    ensures |Wire(w)| == |LineBytes(w.lines[0])| + |Wire(Tail(w))|
    ensures Wire(w)[i] == Wire(Tail(w))[i - |LineBytes(w.lines[0])|]
  {
  }

  lemma PastLineWaits(look: Bytes -> Inspection, w: FirstEvent, m: nat, ended: bool)
    requires w.lines != [] && |LineBytes(w.lines[0])| < m < |Wire(w)|
    requires PassesLine(look, w.lines[0], Wire(Tail(w))[..m - |LineBytes(w.lines[0])|])
    requires Waits(look, Tail(w), m - |LineBytes(w.lines[0])|, ended)
    ensures Waits(look, w, m, ended)
  {
    CutJoined(LineBytes(w.lines[0]), Wire(Tail(w)), m);
  }

  lemma LookWaits(look: Bytes -> Inspection, d: Decoder, w: FirstEvent, m: nat, ended: bool)
    requires IsLook(look, d, ended)
    requires WellFormed(w) && 0 < m < |Wire(w)| && (ended ==> Wire(w)[m - 1] == '\n')
    ensures Waits(look, w, m, ended)
  {
    LookIsPatient(look, d, ended);
    PrefixWaits(look, w, m, ended);
  }

  lemma MakeLook(d: Decoder, ended: bool) returns (look: Bytes -> Inspection)
    ensures IsLook(look, d, ended)
  {
    look := p => Seen(d, TrimSpace(p), ended);
  }

  lemma InspectIsLook(look: Bytes -> Inspection, d: Decoder, format: string, p: Bytes)
    requires IsLook(look, d, FrameEnded(p))
    requires Inspected(format) && |p| < MAX_STARTUP_BYTES && p != [] && !IsSpace(p[0])
    ensures Inspect(d, format, p) == look(p)
  {
    InspectIsSeen(d, format, p);
  }

  /** Cutting the event after m bytes does not end a frame, except inside a blank event line. */
  predicate SafeCut(w: FirstEvent, m: nat)
    requires m <= |Wire(w)|
  {
    InBlankEvent(w, m) || !FrameEnded(Wire(w)[..m])
  }

  /** Exactly when the inspector waits on the first m bytes of the event. */
  lemma PendingExactly(d: Decoder, format: string, w: FirstEvent, m: nat)
    requires WellFormed(w) && Inspected(format) && 0 < m < |Wire(w)| && m < MAX_STARTUP_BYTES
    ensures Inspect(d, format, Wire(w)[..m]).pending <==> SafeCut(w, m)
    ensures Inspect(d, format, Wire(w)[..m]).failure.None?
  {
    var ended := FrameEnded(Wire(w)[..m]);
    var look := MakeLook(d, ended);
    WireStartsVisible(w);
    FrameEndsInNewline(Wire(w)[..m]);
    LookWaits(look, d, w, m, ended);
    InspectIsLook(look, d, format, Wire(w)[..m]);
  }

  lemma InspectIsSeen(d: Decoder, format: string, p: Bytes)
    requires Inspected(format) && |p| < MAX_STARTUP_BYTES && p != [] && !IsSpace(p[0])
    ensures Inspect(d, format, p) == Seen(d, TrimSpace(p), FrameEnded(p))
  {
    TrimVisible(p);
  }

  lemma FrameEndsInNewline(p: Bytes)
    requires p != []
    ensures FrameEnded(p) ==> p[|p| - 1] == '\n'
  {
    if HasSuffix(p, "\n\n") { assert p[|p| - 2..][1] == '\n'; }
    if HasSuffix(p, "\r\n\r\n") { assert p[|p| - 4..][3] == '\n'; }
  }

  // ---- the whole event ----------------------------------------------------

  /** With the object complete, whatever follows, the verdict is the object's. */
  lemma ObjectSeen(d: Decoder, obj: Bytes, rest: Bytes, ended: bool)
    requires Json.ExactObject(obj)
    ensures TrimSpace(obj + rest) != []
      && InspectData(d, TrimSpace(obj + rest), false, ended) == Inspection(false, Classify(d, obj))
  {
    Json.EndsWithBrace(Json.START, obj, 0);
    assert (obj + rest)[0] == '{';
    TrimVisible(obj + rest);
    TrimRightTail(obj, rest);
    Json.ExtensionsAgree(Json.START, obj, TrimRight(rest), 0);
    assert (obj + TrimRight(rest))[..|obj|] == obj;
  }

  lemma FieldSeen(d: Decoder, w: FirstEvent, rest: Bytes, ended: bool)
    requires WellFormed(w) && w.lines == []
    ensures Seen(d, TrimSpace(Field(w) + rest), ended) == Inspection(false, Classify(d, w.obj))
  {
    if w.data.None? {
      ObjectSeen(d, w.obj, rest, ended);
      assert Field(w) + rest == w.obj + rest;
      TrimVisible(w.obj + rest);
    } else {
      var x := w.data.value + (w.obj + rest);
      assert Field(w) + rest == "data:" + x;
      DataBody(x, ended);
      TrimSpacePads(w.data.value, w.obj + rest, []);
      assert w.data.value + (w.obj + rest) + [] == x;
      ObjectSeen(d, w.obj, rest, ended);
    }
  }

  lemma {:induction false} WholeSeen(d: Decoder, w: FirstEvent, rest: Bytes, ended: bool)
    requires WellFormed(w)
    ensures Seen(d, TrimSpace(Wire(w) + rest), ended) == Inspection(false, Classify(d, w.obj))
    decreases |w.lines|
  {
    if w.lines == [] {
      FieldSeen(d, w, rest, ended);
    } else {
      var l := w.lines[0];
      assert Wire(w) + rest == LineBytes(l) + (Wire(Tail(w)) + rest);
      WireStartsVisible(Tail(w));
      SkipsLine(l, Wire(Tail(w)) + rest, ended);
      WholeSeen(d, Tail(w), rest, ended);
    }
  }

  /** Any payload that contains the whole event gets the event's verdict. */
  lemma WholeEvent(d: Decoder, format: string, w: FirstEvent, rest: Bytes)
    requires WellFormed(w) && Inspected(format) && |Wire(w) + rest| < MAX_STARTUP_BYTES
    ensures Inspect(d, format, Wire(w) + rest) == Inspection(false, Classify(d, w.obj))
  {
    var p := Wire(w) + rest;
    WireStartsVisible(w);
    assert p[0] == Wire(w)[0];
    InspectIsSeen(d, format, p);
    WholeSeen(d, w, rest, FrameEnded(p));
  }

  // ---- the reader ---------------------------------------------------------

  /** No cut that the inspector looks at ends a frame before the event does. */
  predicate Smooth(w: FirstEvent) {
    forall m :: 0 < m < |Wire(w)| && m < MAX_STARTUP_BYTES ==> SafeCut(w, m)
  }

  /** The bytes that decide the event: all of it, or as many as the limit. */
  function Need(w: FirstEvent): nat {
    if |Wire(w)| < MAX_STARTUP_BYTES then |Wire(w)| else MAX_STARTUP_BYTES
  }

  /** The number of reads it takes to carry `need` bytes, all of them when they carry fewer. */
  function Reach(script: seq<Read>, need: int): (k: nat)
    ensures k <= |script|
  {
    if need <= 0 || script == [] then 0 else 1 + Reach(script[1..], need - |PayloadOf(script[0])|)
  }

  /** `Reach` is the first boundary at or past `need`. */
  lemma {:induction false} ReachBounds(script: seq<Read>, need: int)
    ensures |AllPayloads(script)| >= need ==> |AllPayloads(script[..Reach(script, need)])| >= need
    ensures forall n :: 0 <= n < Reach(script, need) ==> |AllPayloads(script[..n])| < need
  {
    if need > 0 && script != [] {
      ReachBounds(script[1..], need - |PayloadOf(script[0])|);
      CutTail(script, Reach(script, need) - 1);
      forall n | 0 <= n < Reach(script, need) ensures |AllPayloads(script[..n])| < need {
        if n > 0 { CutTail(script, n - 1); }
      }
    }
  }

  /** The first k reads deliver: chunks without an error, of which only the last may say that the host is done. */
  predicate Delivering(script: seq<Read>, k: nat)
    requires k <= |script|
  {
    forall i :: 0 <= i < k ==> script[i].Chunk? && script[i].error == "" && (i < k - 1 ==> !script[i].done)
  }

  /** On beginnings of `stream` the reader goes on below `need` bytes and ends with what it holds from there on. */
  ghost predicate EndsAt(after: (Bytes, Read) -> Option<Gathered>, stream: Bytes, need: nat) {
    forall held, next: Read {:trigger EndsThere(after, held, next, need)} ::
      next.Chunk? && next.error == "" && held + next.payload <= stream ==> EndsThere(after, held, next, need)
  }

  predicate EndsThere(after: (Bytes, Read) -> Option<Gathered>, held: Bytes, next: Read, need: nat)
    requires next.Chunk?
  {
    && (|held + next.payload| < need && !next.done ==> after(held, next).None?)
    && (|held| < need <= |held + next.payload| ==> after(held, next) == Some(Gathered(held + next.payload)))
  }

  lemma {:induction false} GatherUntil(after: (Bytes, Read) -> Option<Gathered>, stream: Bytes, need: nat,
                                       script: seq<Read>, held: Bytes, used: nat)
    requires EndsAt(after, stream, need) && |held| < need <= |stream|
    requires var k := Reach(script, need - |held|);
      Delivering(script, k) && held + AllPayloads(script[..k]) == stream
    ensures Gather(after, script, held, used) == (Gathered(stream), used + Reach(script, need - |held|))
    decreases |script|
  {
    var k := Reach(script, need - |held|);
    var longer := held + PayloadOf(script[0]);
    CutTail(script, k - 1);
    Regroup(held, PayloadOf(script[0]), AllPayloads(script[1..][..k - 1]));
    assert longer <= stream && EndsThere(after, held, script[0], need);
    if |longer| < need {
      GatherUntil(after, stream, need, script[1..], longer, used + 1);
    } else {
      assert k == 1 && AllPayloads(script[1..][..0]) == [] && longer + [] == longer;
    }
  }

  lemma GatherFromStart(after: (Bytes, Read) -> Option<Gathered>, need: nat, script: seq<Read>)
    requires var k := Reach(script, need);
      Delivering(script, k) && 0 < need <= |AllPayloads(script[..k])| && EndsAt(after, AllPayloads(script[..k]), need)
    ensures var k := Reach(script, need); Gather(after, script, [], 0) == (Gathered(AllPayloads(script[..k])), k)
  {
    var stream := AllPayloads(script[..Reach(script, need)]);
    assert [] + stream == stream;
    GatherUntil(after, stream, need, script, [], 0);
  }

  /** One of them is a beginning of the other. */
  predicate Comparable(a: Bytes, b: Bytes) {
    a <= b || b <= a
  }

  /** A beginning of the stream is held while the event is incomplete and below the limit, and decided from there on. */
  lemma HeldOrDecided(d: Decoder, format: string, w: FirstEvent, stream: Bytes, p: Bytes)
    requires WellFormed(w) && Inspected(format) && Smooth(w)
    requires p != [] && Comparable(Wire(w), stream) && p <= stream
    ensures Inspect(d, format, p).pending <==> |p| < Need(w)
  {
    if |p| < Need(w) {
      assert p == Wire(w)[..|p|] && SafeCut(w, |p|);
      PendingExactly(d, format, w, |p|);
    } else if |p| < MAX_STARTUP_BYTES {
      WholePrefix(d, format, w, p);
    }
  }

  lemma ReaderEnds(d: Decoder, format: string, w: FirstEvent, stream: Bytes)
    requires WellFormed(w) && Inspected(format) && Smooth(w) && Comparable(Wire(w), stream)
    ensures Need(w) > 0 && EndsAt(Reader(d, format), stream, Need(w))
  {
    WireStartsVisible(w);
    forall held, next: Read | next.Chunk? && next.error == "" && held + next.payload <= stream
      ensures EndsThere(Reader(d, format), held, next, Need(w))
    {
      if held + next.payload != [] { HeldOrDecided(d, format, w, stream, held + next.payload); }
    }
  }

  /** The first k reads carry what decides the event: `payload`, of this event or, past the limit, of its beginning. */
  predicate Carries(w: FirstEvent, script: seq<Read>, payload: Bytes) {
    var k := Reach(script, Need(w));
    payload == AllPayloads(script[..k]) && |payload| >= Need(w) && Comparable(Wire(w), payload)
  }

  /**
   For every way of cutting the stream into chunks, of any size, the reader returns exactly the chunks up to the first
   boundary at or past the end of the object, or at or past the limit if that comes first. The last of them may say
   Done; later reads, which the reader does not make, may be anything.
   */
  lemma ChunkingInvariance(d: Decoder, format: string, w: FirstEvent, script: seq<Read>, payload: Bytes)
    requires WellFormed(w) && Inspected(format) && Smooth(w)
    requires Carries(w, script, payload) && Delivering(script, Reach(script, Need(w)))
    ensures Gather(Reader(d, format), script, [], 0) == (Gathered(payload), Reach(script, Need(w)))
  {
    ReaderEnds(d, format, w, payload);
    GatherFromStart(Reader(d, format), Need(w), script);
  }

  /**
   The verdict on what the reader returns is its object's below the limit, and no failure from the limit on. So it is
   the verdict on the event by itself if and only if the payload stays below the limit, or the event reaches it by
   itself, or it reports no failure.
   */
  lemma VerdictInvariance(d: Decoder, format: string, w: FirstEvent, script: seq<Read>, payload: Bytes)
    requires WellFormed(w) && Inspected(format) && Carries(w, script, payload)
    ensures Inspect(d, format, payload)
         == if |payload| < MAX_STARTUP_BYTES then Inspection(false, Classify(d, w.obj)) else DECIDED
    ensures var same := Inspect(d, format, payload) == Inspect(d, format, Wire(w));
      same <==> |payload| < MAX_STARTUP_BYTES || |Wire(w)| >= MAX_STARTUP_BYTES || Classify(d, w.obj).None?
  {
    if |payload| < MAX_STARTUP_BYTES { WholePrefix(d, format, w, payload); }
    if |Wire(w)| < MAX_STARTUP_BYTES { WholePrefix(d, format, w, Wire(w)); }
  }

  /** A failure event whose only chunk goes on past the limit is read, but its failure is not recognised. */
  lemma LargeChunkHidesFailure(d: Decoder, format: string, w: FirstEvent) returns (payload: Bytes)
    requires WellFormed(w) && Inspected(format) && |Wire(w)| < MAX_STARTUP_BYTES && Classify(d, w.obj).Some?
    ensures Wire(w) <= payload
    ensures Gather(Reader(d, format), [Chunk(payload, false, "")], [], 0) == (Gathered(payload), 1)
    ensures Inspect(d, format, payload).failure.None? && Inspect(d, format, Wire(w)).failure.Some?
  {
    payload := Wire(w) + seq(MAX_STARTUP_BYTES, _ => ' ');
    WholePrefix(d, format, w, Wire(w));
    LargeChunk(d, format, payload);
  }

  lemma LargeChunk(d: Decoder, format: string, payload: Bytes)
    requires |payload| >= MAX_STARTUP_BYTES
    ensures Inspect(d, format, payload) == DECIDED
    ensures Gather(Reader(d, format), [Chunk(payload, false, "")], [], 0) == (Gathered(payload), 1)
  {
    assert [] + payload == payload;
    ReadOne(d, format, [], payload, payload);
  }

  lemma WholePrefix(d: Decoder, format: string, w: FirstEvent, payload: Bytes)
    requires WellFormed(w) && Inspected(format) && Wire(w) <= payload && |payload| < MAX_STARTUP_BYTES
    ensures Inspect(d, format, payload) == Inspection(false, Classify(d, w.obj))
  {
    assert payload == Wire(w) + payload[|Wire(w)|..];
    WholeEvent(d, format, w, payload[|Wire(w)|..]);
  }

  /** Cut after m bytes, the event comes back whole. */
  predicate ReadsWhole(d: Decoder, format: string, w: FirstEvent, m: nat)
    requires m <= |Wire(w)|
  {
    ReadsTogether(d, format, Wire(w)[..m], Wire(w)[m..], Wire(w))
  }

  predicate ReadsTogether(d: Decoder, format: string, one: Bytes, two: Bytes, whole: Bytes) {
    Gather(Reader(d, format), [Chunk(one, false, ""), Chunk(two, false, "")], [], 0) == (Gathered(whole), 2)
  }

  /** Two chunks come back together exactly when the reader goes on after the first. */
  lemma GatherTwo(after: (Bytes, Read) -> Option<Gathered>, one: Read, two: Read, whole: Bytes)
    requires after([], one) == None || after([], one) == Some(Gathered(PayloadOf(one)))
    requires whole == PayloadOf(one) + PayloadOf(two) != PayloadOf(one)
    requires after(PayloadOf(one), two) == None || after(PayloadOf(one), two) == Some(Gathered(whole))
    ensures Gather(after, [one, two], [], 0) == (Gathered(whole), 2) <==> after([], one) == None
  {
    assert [one, two][1..] == [two] && [two][1..] == [] && [] + PayloadOf(one) == PayloadOf(one);
    assert after([], one) == None ==> Gather(after, [one, two], [], 0) == Gather(after, [two], PayloadOf(one), 1);
  }

  lemma ReadOne(d: Decoder, format: string, held: Bytes, payload: Bytes, longer: Bytes)
    requires payload != [] && longer == held + payload
    ensures Reader(d, format)(held, Chunk(payload, false, ""))
         == if Inspect(d, format, longer).pending then None else Some(Gathered(longer))
  {
  }

  lemma CutInTwo(d: Decoder, format: string, w: FirstEvent, m: nat)
    requires WellFormed(w) && Inspected(format) && 0 < m < |Wire(w)| && m < MAX_STARTUP_BYTES
    ensures ReadsWhole(d, format, w, m) <==> SafeCut(w, m)
  {
    CutJoins(Wire(w), m);
    PendingExactly(d, format, w, m);
    TwoParts(d, format, Wire(w)[..m], Wire(w)[m..], Wire(w));
  }

  lemma CutJoins(whole: Bytes, m: nat)
    requires 0 < m < |whole|
    ensures whole[..m] != [] && whole[m..] != [] && whole == whole[..m] + whole[m..]
  {
  }

  lemma TwoParts(d: Decoder, format: string, one: Bytes, two: Bytes, whole: Bytes)
    requires one != [] && two != [] && whole == one + two
    ensures ReadsTogether(d, format, one, two, whole) <==> Inspect(d, format, one).pending
  {
    assert [] + one == one;
    ReadOne(d, format, [], one, one);
    ReadOne(d, format, one, two, whole);
    GatherTwo(Reader(d, format), Chunk(one, false, ""), Chunk(two, false, ""), whole);
  }

  /**
   The smoothness condition is exact: an event comes back whole however it is cut in two if and only if no proper
   prefix ends a frame outside a blank event line.
   */
  lemma SmoothExactly(d: Decoder, format: string, w: FirstEvent)
    requires WellFormed(w) && Inspected(format)
    ensures Smooth(w)
       <==> forall m :: 0 < m < |Wire(w)| && m < MAX_STARTUP_BYTES ==> ReadsWhole(d, format, w, m)
  {
    forall m | 0 < m < |Wire(w)| && m < MAX_STARTUP_BYTES ensures ReadsWhole(d, format, w, m) <==> SafeCut(w, m) {
      CutInTwo(d, format, w, m);
    }
  }

  /**
   Not every event is smooth: a blank line between the data field and its object, cut right after it, is returned
   early.
   */
  lemma EarlyCut(d: Decoder, format: string)
    requires Inspected(format)
    ensures var w := FirstEvent([], Some("\n\n"), "{}");
      WellFormed(w) && !ReadsWhole(d, format, w, 7)
  {
    var w := FirstEvent([], Some("\n\n"), "{}");
    Json.EmptyObject();
    assert Wire(w)[..7] == "data:\n\n";
    assert HasSuffix(Wire(w)[..7], "\n\n");
    CutInTwo(d, format, w, 7);
  }
}
