/** The optional value used wherever the Go code uses nil, a missing map entry or a nil error. */
module Wrappers {
  datatype Option<+T> = None | Some(value: T)
}

/** Division facts the solver does not find by itself. */
module Arith {
  lemma AtLeastOnce(k: int, d: int)
    requires d > 0
    ensures k >= 1 ==> k * d >= d
    ensures k <= -1 ==> k * d <= -d
  {
  }

  /** A quotient and a remainder in range are the quotient and the remainder. */
  lemma DivModUnique(x: int, d: int, q: int, m: int)
    requires d > 0 && x == q * d + m && 0 <= m < d
    ensures x / d == q && x % d == m
  {
    var k := x / d - q;
    Difference(x / d, q, d);
    AtLeastOnce(k, d);
  }

  lemma Difference(a: int, b: int, d: int)
    ensures (a - b) * d == a * d - b * d
  {
  }

  /** Splitting an index into cycles of n blocks of b, and into blocks first, agree. */
  lemma BlockOfCycle(k: nat, n: nat, b: nat)
    requires n > 0 && b > 0
    ensures n * b > 0
    ensures (k % (n * b)) / b == (k / b) % n
    ensures k / (n * b) == k / b / n
  {
    AtLeastOnce(n, b);
    var u, v, w := k / b / n, k / b % n, k % b;
    InCycle(n, b, v, w);
    Regrouped(k, n, b, u, v, w);
    DivModUnique(k, n * b, u, v * b + w);
    DivModUnique(v * b + w, b, v, w);
  }

  /** Block v of a cycle, and w within it, are within the cycle. */
  lemma InCycle(n: nat, b: nat, v: nat, w: nat)
    requires v < n && w < b
    ensures 0 <= v * b + w < n * b
  {
    NonNegative(v, b);
    Difference(n, v, b);
    AtLeastOnce(n - v, b);
  }

  lemma Regrouped(k: int, n: nat, b: nat, u: int, v: int, w: int)
    requires k == (u * n + v) * b + w
    ensures k == u * (n * b) + (v * b + w)
  {
    Distribute(u, n, v, b);
  }

  lemma Distribute(u: int, n: int, v: int, b: int)
    ensures (u * n + v) * b == u * (n * b) + v * b
  {
  }

  lemma OneMore(a: int, b: int)
    ensures (a + 1) * b == a * b + b
  {
  }

  lemma NonNegative(a: int, b: int)
    requires a >= 0 && b >= 0
    ensures a * b >= 0
  {
  }

  lemma DivLess(k: nat, n: nat, b: nat)
    requires b > 0 && k < n * b
    ensures k / b < n && k == (k / b) * b + k % b
  {
    Difference(k / b, n, b);
    AtLeastOnce(k / b - n, b);
  }

  lemma OneCycleLess(k: nat, cycle: nat)
    requires cycle > 0
    ensures k < cycle ==> k % cycle == k && k / cycle == 0
    ensures k >= cycle ==> (k - cycle) % cycle == k % cycle && (k - cycle) / cycle == k / cycle - 1
  {
    if k < cycle {
      DivModUnique(k, cycle, 0, k);
    } else {
      Difference(k / cycle, 1, cycle);
      DivModUnique(k - cycle, cycle, k / cycle - 1, k % cycle);
    }
  }
}

/** Facts about sequences and sets that the solver does not use by itself. */
module Collections {
  lemma SubsetSize<T>(a: set<T>, b: set<T>)
    requires a <= b
    ensures |a| <= |b|
  {
    assert b == a + (b - a);
  }

  lemma Regroup<T>(a: seq<T>, b: seq<T>, c: seq<T>)
    ensures (a + b) + c == a + (b + c)
  {
  }

  lemma CutJoined<T>(a: seq<T>, b: seq<T>, m: nat)
    requires |a| < m <= |a + b|
    ensures (a + b)[..m] == a + b[..m - |a|]
  {
  }

  /** The first n + 1 elements, without the first one. */
  lemma CutTail<T>(s: seq<T>, n: nat)
    requires n < |s|
    ensures s[..n + 1][0] == s[0] && s[..n + 1][1..] == s[1..][..n]
  {
  }
}

/**
 String and byte-slice helpers shared by the configuration and the stream inspector.
 Go strings and byte slices are byte sequences; one `char` stands for one byte here, and
 white space and letter case are the ASCII ones.
 */
module Text {
  type Bytes = seq<char>

  predicate IsSpace(c: char) {
    c == ' ' || '\t' <= c <= '\r'
  }

  predicate AllSpace(s: Bytes) {
    forall i :: 0 <= i < |s| ==> IsSpace(s[i])
  }

  function TrimLeft(s: Bytes): Bytes {
    if s != [] && IsSpace(s[0]) then TrimLeft(s[1..]) else s
  }

  function TrimRight(s: Bytes): Bytes {
    if s != [] && IsSpace(s[|s| - 1]) then TrimRight(s[..|s| - 1]) else s
  }

  function TrimSpace(s: Bytes): Bytes {
    TrimRight(TrimLeft(s))
  }

  function LowerChar(c: char): char {
    if 'A' <= c <= 'Z' then (c as int + 32) as char else c
  }

  function ToLower(s: Bytes): (r: Bytes)
    ensures |r| == |s|
    ensures forall i :: 0 <= i < |s| ==> r[i] == LowerChar(s[i])
  {
    seq(|s|, i requires 0 <= i < |s| => LowerChar(s[i]))
  }

  /** The canonical form of a configured key: trimmed and lower-cased. */
  function NormalizeKey(s: Bytes): Bytes {
    ToLower(TrimSpace(s))
  }

  predicate HasPrefix(s: Bytes, prefix: Bytes) {
    prefix <= s
  }

  predicate HasSuffix(s: Bytes, suffix: Bytes) {
    |suffix| <= |s| && s[|s| - |suffix|..] == suffix
  }

  predicate Contains(s: Bytes, part: Bytes) {
    exists i {:trigger s[i..]} :: 0 <= i <= |s| && part <= s[i..]
  }

  /** Trimming removes exactly a white-space pad on each side. */
  lemma {:induction false} TrimLeftPad(pad: Bytes, s: Bytes)
    requires AllSpace(pad)
    ensures TrimLeft(pad + s) == TrimLeft(s)
  {
    if pad == [] {
      assert pad + s == s;
    } else {
      assert (pad + s)[1..] == pad[1..] + s;
      TrimLeftPad(pad[1..], s);
    }
  }

  lemma {:induction false} TrimRightPad(s: Bytes, pad: Bytes)
    requires AllSpace(pad)
    ensures TrimRight(s + pad) == TrimRight(s)
  {
    if pad == [] {
      assert s + pad == s;
    } else {
      var n := |pad| - 1;
      assert (s + pad)[..|s + pad| - 1] == s + pad[..n];
      TrimRightPad(s, pad[..n]);
    }
  }

  /** What `TrimLeft` returns: a suffix of the input, preceded by white space only. */
  lemma {:induction false} TrimLeftShape(s: Bytes) returns (pad: Bytes)
    ensures AllSpace(pad) && s == pad + TrimLeft(s)
    ensures TrimLeft(s) != [] ==> !IsSpace(TrimLeft(s)[0])
  {
    if s != [] && IsSpace(s[0]) {
      var rest := TrimLeftShape(s[1..]);
      pad := [s[0]] + rest;
    } else {
      pad := [];
    }
  }

  lemma {:induction false} TrimRightShape(s: Bytes) returns (pad: Bytes)
    ensures AllSpace(pad) && s == TrimRight(s) + pad
    ensures TrimRight(s) != [] ==> !IsSpace(TrimRight(s)[|TrimRight(s)| - 1])
  {
    if s != [] && IsSpace(s[|s| - 1]) {
      var rest := TrimRightShape(s[..|s| - 1]);
      pad := rest + [s[|s| - 1]];
    } else {
      pad := [];
    }
  }

  lemma {:induction false} TrimAllSpace(s: Bytes)
    requires AllSpace(s)
    ensures TrimLeft(s) == [] && TrimRight(s) == [] && TrimSpace(s) == []
  {
    TrimLeftPad(s, []);
    TrimRightPad([], s);
    assert s + [] == s && [] + s == s;
  }

  /** A left-trimmed text keeps its first character when it is trimmed on the right as well. */
  lemma TrimSpacePads(pad: Bytes, s: Bytes, tail: Bytes)
    requires AllSpace(pad) && AllSpace(tail)
    ensures TrimSpace(pad + s + tail) == TrimSpace(s)
  {
    assert pad + s + tail == pad + (s + tail);
    TrimLeftPad(pad, s + tail);
    var lead := TrimLeftShape(s);
    assert s + tail == lead + (TrimLeft(s) + tail);
    TrimLeftPad(lead, TrimLeft(s) + tail);
    if TrimLeft(s) == [] {
      assert TrimLeft(s) + tail == tail;
      TrimAllSpace(tail);
    } else {
      assert TrimLeft(TrimLeft(s) + tail) == TrimLeft(s) + tail;
      TrimRightPad(TrimLeft(s), tail);
    }
  }

  lemma {:induction false} TrimLeftLower(s: Bytes)
    ensures TrimLeft(ToLower(s)) == ToLower(TrimLeft(s))
  {
    if s != [] && IsSpace(s[0]) {
      assert ToLower(s)[1..] == ToLower(s[1..]);
      TrimLeftLower(s[1..]);
    }
  }

  lemma {:induction false} TrimRightLower(s: Bytes)
    ensures TrimRight(ToLower(s)) == ToLower(TrimRight(s))
  {
    if s != [] && IsSpace(s[|s| - 1]) {
      assert ToLower(s)[..|s| - 1] == ToLower(s[..|s| - 1]);
      TrimRightLower(s[..|s| - 1]);
    }
  }

  /** A key's normal form ignores letter case and surrounding white space. */
  lemma NormalizeKeyIgnoresCaseAndPads(pad: Bytes, s: Bytes, tail: Bytes, variant: Bytes)
    requires AllSpace(pad) && AllSpace(tail) && ToLower(variant) == ToLower(s)
    ensures NormalizeKey(pad + variant + tail) == NormalizeKey(s)
  {
    TrimSpacePads(pad, variant, tail);
    TrimLeftLower(s);
    TrimLeftLower(variant);
    TrimRightLower(TrimLeft(s));
    TrimRightLower(TrimLeft(variant));
  }

  lemma TrimTwice(s: Bytes)
    ensures TrimSpace(TrimSpace(s)) == TrimSpace(s)
  {
    var pad := TrimLeftShape(s);
    var tail := TrimRightShape(TrimLeft(s));
    assert s == pad + TrimSpace(s) + tail;
    TrimSpacePads(pad, TrimSpace(s), tail);
  }

  lemma LowerTwice(s: Bytes)
    ensures ToLower(ToLower(s)) == ToLower(s)
  {
  }

  lemma TrimLower(s: Bytes)
    ensures TrimSpace(ToLower(s)) == ToLower(TrimSpace(s))
  {
    TrimLeftLower(s);
    TrimRightLower(TrimLeft(s));
  }

  /** Normalizing twice changes nothing. */
  lemma NormalizeKeyIdempotent(s: Bytes)
    ensures NormalizeKey(NormalizeKey(s)) == NormalizeKey(s)
  {
    TrimLower(TrimSpace(s));
    TrimTwice(s);
    LowerTwice(TrimSpace(s));
  }

  /** The text has no white space to lose. */
  predicate Trimmed(s: Bytes) {
    s != [] ==> !IsSpace(s[0]) && !IsSpace(s[|s| - 1])
  }

  /** Trimming keeps everything between the outer white space. */
  lemma TrimExactly(pad: Bytes, core: Bytes, tail: Bytes)
    requires AllSpace(pad) && AllSpace(tail) && Trimmed(core)
    ensures TrimSpace(pad + core + tail) == core
    ensures NormalizeKey(pad + core + tail) == ToLower(core)
  {
    TrimSpacePads(pad, core, tail);
    assert TrimLeft(core) == core && TrimRight(core) == core;
  }

  /** One letter in either case, or one character. */
  predicate SameLetter(a: char, b: char) {
    || a == b
    || ('A' <= a <= 'Z' && b as int == a as int + 32)
    || ('A' <= b <= 'Z' && a as int == b as int + 32)
  }

  /** Texts have the same lower case exactly when they differ in the case of letters only. */
  lemma SameLowerExactly(a: Bytes, b: Bytes)
    ensures ToLower(a) == ToLower(b) <==> |a| == |b| && forall i :: 0 <= i < |a| ==> SameLetter(a[i], b[i])
    ensures forall i :: 0 <= i < |a| ==> !('A' <= ToLower(a)[i] <= 'Z')
  {
    if ToLower(a) == ToLower(b) {
      forall i | 0 <= i < |a| ensures SameLetter(a[i], b[i]) {
        assert ToLower(a)[i] == ToLower(b)[i];
      }
    }
  }
}

/** Go's byte-wise order on strings is a strict total order. */
module Ids {
  predicate Less(a: string, b: string) {
    b != [] && (a == [] || a[0] < b[0] || (a[0] == b[0] && Less(a[1..], b[1..])))
  }

  lemma {:induction false} Irreflexive(a: string)
    ensures !Less(a, a)
  {
    if a != [] { Irreflexive(a[1..]); }
  }

  lemma {:induction false} Transitive(a: string, b: string, c: string)
    requires Less(a, b) && Less(b, c)
    ensures Less(a, c)
  {
    if a != [] && a[0] == b[0] && b[0] == c[0] { Transitive(a[1..], b[1..], c[1..]); }
  }

  lemma {:induction false} Connected(a: string, b: string)
    ensures a == b || Less(a, b) || Less(b, a)
  {
    if a != [] && b != [] && a[0] == b[0] {
      Connected(a[1..], b[1..]);
      assert a == [a[0]] + a[1..] && b == [b[0]] + b[1..];
    }
  }
}
