/**
 The byte stream between the sample writer and the feed handler: length-prefixed frames with big-endian
 fields (create_itch.cpp, feed_handler.hpp, feed_handler.cpp).
 */
module Feeds {
  import opened Orders

  type byte = x: int | 0 <= x < 256

  const BLANK: byte := 0x20
  const LETTER_A: byte := 0x41
  const LETTER_B: byte := 0x42
  const LETTER_C: byte := 0x43
  const LETTER_E: byte := 0x45
  const LETTER_F: byte := 0x46
  const LETTER_U: byte := 0x55
  const LETTER_X: byte := 0x58

  /** The letters are the characters the source names. */
  lemma {:induction false} Letters()
    ensures [BLANK, LETTER_A, LETTER_B, LETTER_C, LETTER_E, LETTER_F, LETTER_U, LETTER_X]
            == [' ' as int, 'A' as int, 'B' as int, 'C' as int, 'E' as int, 'F' as int, 'U' as int, 'X' as int]
  {
  }

  // ----- big-endian numbers -----

  function Pow256(n: nat): (p: nat)
    ensures p > 0
  {
    if n == 0 then 1 else 256 * Pow256(n - 1)
  }

  /** The number a run of bytes spells, most significant first. */
  function Big(bytes: seq<byte>): nat {
    if bytes == [] then 0 else Big(bytes[..|bytes| - 1]) * 256 + bytes[|bytes| - 1]
  }

  /** The low n bytes of a number, most significant first. */
  function Digits(x: nat, n: nat): (bytes: seq<byte>)
    ensures |bytes| == n
  {
    if n == 0 then [] else Digits(x / 256, n - 1) + [x % 256]
  }

  lemma {:induction false} BigBound(bytes: seq<byte>)
    ensures Big(bytes) < Pow256(|bytes|)
  {
    if bytes != [] {
      BigBound(bytes[..|bytes| - 1]);
    }
  }

  /** Reading back what was written gives the number, less what did not fit. */
  lemma {:induction false} BigDigits(x: nat, n: nat)
    ensures Big(Digits(x, n)) == x % Pow256(n)
  {
    if n > 0 {
      BigDigits(x / 256, n - 1);
      assert Digits(x, n)[..n - 1] == Digits(x / 256, n - 1);
      ModSplit(x, Pow256(n - 1));
    }
  }

  lemma {:induction false} ModSplit(x: nat, p: nat)
    requires p > 0
    ensures x % (256 * p) == (x / 256 % p) * 256 + x % 256
  {
    var q, r := x / 256, x % 256;
    var k := q / p;
    assert x == 256 * q + r && q == p * k + q % p;
    assert x == (256 * p) * k + (256 * (q % p) + r);
    DivUnique(x, 256 * p, k, 256 * (q % p) + r);
  }

  lemma {:induction false} DivUnique(x: int, m: int, k: int, r: int)
    requires m > 0 && x == m * k + r && 0 <= r < m
    ensures x / m == k && x % m == r
  {
    var q, s := x / m, x % m;
    assert x == m * q + s;
    assert m * (q - k) == m * q - m * k;
    if q != k {
      LargeMultiple(m, q - k);
      assert false;
    }
  }

  lemma {:induction false} LargeMultiple(m: int, d: int)
    requires m > 0 && d != 0
    ensures m * d >= m || m * d <= -m
  {
    if d > 0 {
      assert m * (d - 1) >= 0;
    } else {
      assert m * (-d - 1) >= 0;
    }
  }

  /** Each digit is what shifting and masking finds. */
  lemma {:induction false} DigitAt(x: nat, n: nat, i: nat)
    requires i < n
    ensures Digits(x, n)[i] == x / Pow256(n - 1 - i) % 256
  {
    if i < n - 1 {
      DigitAt(x / 256, n - 1, i);
      DivDiv(x, Pow256(n - 2 - i));
    }
  }

  lemma {:induction false} DivDiv(x: nat, p: nat)
    requires p > 0
    ensures x / 256 / p == x / (256 * p)
  {
    var q := x / 256;
    assert x == 256 * (p * (q / p) + q % p) + x % 256;
    assert x == (256 * p) * (q / p) + (256 * (q % p) + x % 256);
    DivUnique(x, 256 * p, q / p, 256 * (q % p) + x % 256);
  }

  // ----- symbols -----

  /** A C string: what comes before the first NUL. */
  function CString(s: seq<byte>): seq<byte> {
    if s == [] || s[0] == 0 then [] else [s[0]] + CString(s[1..])
  }

  function Zeros(n: nat): (z: seq<byte>)
    ensures |z| == n && forall i :: 0 <= i < n ==> z[i] == 0
  {
    seq(n, _ => 0)
  }

  function TrimBlanks(s: seq<byte>): seq<byte> {
    if s != [] && s[|s| - 1] == BLANK then TrimBlanks(s[..|s| - 1]) else s
  }

  /** The six bytes the writer gives a symbol: as much of it as fits, NULs after it. */
  function SymbolField(symbol: seq<byte>): (field: seq<byte>)
    ensures |field| == 6
  {
    var s := CString(symbol);
    if |s| >= 6 then s[..6] else s + Zeros(6 - |s|)
  }

  /** What the parser makes of six bytes: blanks are trimmed only off a symbol that fills the field. */
  function SymbolIn(field: seq<byte>): seq<byte> {
    var s := CString(field);
    if |s| == 6 then TrimBlanks(s) else s
  }

  lemma {:induction false} CStringClean(s: seq<byte>)
    ensures |CString(s)| <= |s| && 0 !in CString(s) && CString(s) == s[..|CString(s)|]
    ensures |CString(s)| < |s| ==> s[|CString(s)|] == 0
    ensures CString(s) == s <==> 0 !in s
  {
    if s != [] && s[0] != 0 {
      CStringClean(s[1..]);
      assert s == [s[0]] + s[1..];
    }
  }

  lemma {:induction false} CStringPadded(s: seq<byte>, n: nat)
    requires 0 !in s
    ensures CString(s + Zeros(n)) == s
  {
    if s != [] {
      assert s[0] in s;
      assert (s + Zeros(n))[1..] == s[1..] + Zeros(n);
      CStringPadded(s[1..], n);
    }
  }

  /** A symbol survives the trip exactly when it has no NUL, fits, and does not fill the field with a blank last. */
  lemma {:induction false} SymbolSurvivesIff(symbol: seq<byte>)
    ensures SymbolIn(SymbolField(symbol)) == symbol
            <==> 0 !in symbol && |symbol| <= 6 && !(|symbol| == 6 && symbol[5] == BLANK)
  {
    var s := CString(symbol);
    CStringClean(symbol);
    if |s| >= 6 {
      CStringPadded(s[..6], 0);
      assert s[..6] + Zeros(0) == s[..6];
      TrimBlanksShorter(s[..6]);
      assert |symbol| == 6 ==> s[..6] == s;
    } else {
      CStringPadded(s, 6 - |s|);
    }
  }

  function Blanks(n: nat): (b: seq<byte>)
    ensures |b| == n && forall i :: 0 <= i < n ==> b[i] == BLANK
  {
    seq(n, _ => BLANK)
  }

  /** A symbol padded with blanks to the width of the field is read without them. */
  lemma {:induction false} PaddedSymbolRead(s: seq<byte>)
    requires 0 !in s && |s| <= 6 && (s == [] || s[|s| - 1] != BLANK)
    ensures SymbolIn(s + Blanks(6 - |s|)) == s
  {
    CStringClean(s + Blanks(6 - |s|));
    TrimBlanksAll(s, 6 - |s|);
  }

  lemma {:induction false} TrimBlanksAll(s: seq<byte>, n: nat)
    requires s == [] || s[|s| - 1] != BLANK
    ensures TrimBlanks(s + Blanks(n)) == s
  {
    if n > 0 {
      TrimBlanksAll(s, n - 1);
      assert (s + Blanks(n))[..|s| + n - 1] == s + Blanks(n - 1);
    } else {
      assert s + Blanks(0) == s;
    }
  }

  lemma {:induction false} TrimBlanksShorter(s: seq<byte>)
    ensures |TrimBlanks(s)| <= |s| && (TrimBlanks(s) == s <==> s == [] || s[|s| - 1] != BLANK)
  {
    if s != [] && s[|s| - 1] == BLANK {
      TrimBlanksShorter(s[..|s| - 1]);
    }
  }

  // ----- frames -----

  /** A callback with the fields it is given. */
  datatype Event =
    | Added(id: nat, symbol: seq<byte>, isBuy: bool, price: int, quantity: nat, timestamp: nat)
    | Cancelled(id: nat)
    | Modified(id: nat, quantity: nat, price: int)
    | Executed(id: nat, quantity: nat)

  /** What processing some bytes amounts to: callbacks in order, messages counted, errors counted. */
  datatype Tally = Tally(events: seq<Event>, messages: nat, errors: nat) {
    function Plus(t: Tally): Tally {
      Tally(events + t.events, messages + t.messages, errors + t.errors)
    }
  }

  const NOTHING := Tally([], 0, 0)
  const FAILED := Tally([], 0, 1)

  function Fired(e: Event): Tally {
    Tally([e], 1, 0)
  }

  function Field(frame: seq<byte>, at: nat, n: nat): nat
    requires at + n <= |frame|
  {
    Big(frame[at..at + n])
  }

  function AddedBy(frame: seq<byte>): Event
    requires |frame| >= 35
  {
    Added(Field(frame, 11, 8), SymbolIn(frame[19..25]), frame[25] == LETTER_B, Field(frame, 26, 4), Field(frame, 30, 4),
          Field(frame, 3, 8))
  }

  /** One frame of the given kind: too short for its kind is an error, an unknown kind is passed over. */
  function Read(frame: seq<byte>, kind: byte): Tally {
    if kind == LETTER_A || kind == LETTER_F then
      if |frame| < 35 then FAILED else Fired(AddedBy(frame))
    else if kind == LETTER_X then
      if |frame| < 23 then FAILED else Fired(Event.Cancelled(Field(frame, 11, 8)))
    else if kind == LETTER_U then
      if |frame| < 35 then FAILED else Fired(Modified(Field(frame, 11, 8), Field(frame, 27, 4), Field(frame, 31, 4)))
    else if kind == LETTER_E || kind == LETTER_C then
      if |frame| < 27 then FAILED else Fired(Executed(Field(frame, 11, 8), Field(frame, 19, 4)))
    else NOTHING
  }

  function FrameLength(data: seq<byte>): nat
    requires |data| >= 2
  {
    var high: int := data[0];
    high * 256 + data[1]
  }

  predicate Framed(data: seq<byte>) {
    |data| >= 2 && 2 <= FrameLength(data) <= |data|
  }

  /** A buffer starts with a frame exactly when its first two bytes spell a length from 2 to the bytes there are. */
  lemma {:induction false} FramedIff(data: seq<byte>)
    ensures Framed(data) <==> |data| >= 2 && 2 <= Big(data[..2]) <= |data|
    ensures |data| >= 2 ==> FrameLength(data) == Big(data[..2])
  {
    if |data| >= 2 {
      var two := data[..2];
      assert two[..1] == [data[0]] && two[..1][..0] == [];
      assert Big(two[..1]) == data[0];
    }
  }

  /** The kind of the first frame; a frame of length 2 has none of its own and takes the byte after it. */
  function Kind(data: seq<byte>, beyond: byte): byte
    requires |data| >= 2
  {
    if |data| > 2 then data[2] else beyond
  }

  /** What a buffer amounts to; `beyond` is the byte behind its end. */
  function Feed(data: seq<byte>, beyond: byte): Tally
    decreases |data|
  {
    if |data| < 2 then NOTHING
    else if !Framed(data) then FAILED
    else Read(data[..FrameLength(data)], Kind(data, beyond)).Plus(Feed(data[FrameLength(data)..], beyond))
  }

  lemma {:induction false} PlusAssoc(a: Tally, b: Tally, c: Tally)
    ensures a.Plus(b).Plus(c) == a.Plus(b.Plus(c))
  {
  }

  lemma {:induction false} PlusNothing(t: Tally)
    ensures NOTHING.Plus(t) == t && t.Plus(NOTHING) == t
  {
  }

  /** Nothing but complete frames. */
  predicate Whole(data: seq<byte>)
    decreases |data|
  {
    data == [] || (Framed(data) && Whole(data[FrameLength(data)..]))
  }

  /** The complete frames end, at the end of the buffer, in one of length 2: its kind byte lies behind the buffer. */
  predicate EndsShort(data: seq<byte>)
    decreases |data|
  {
    Framed(data) && (|data| == 2 || EndsShort(data[FrameLength(data)..]))
  }

  /** Where the complete frames at the front of a buffer end. */
  function WholePrefix(data: seq<byte>): (k: nat)
    ensures k <= |data|
    decreases |data|
  {
    if Framed(data) then FrameLength(data) + WholePrefix(data[FrameLength(data)..]) else 0
  }

  function Behind(b: seq<byte>, beyond: byte): byte {
    if b == [] then beyond else b[0]
  }

  lemma {:induction false} FeedFirst(data: seq<byte>, beyond: byte)
    requires Framed(data)
    ensures var n := FrameLength(data);
            Feed(data, beyond) == Read(data[..n], Kind(data, beyond)).Plus(Feed(data[n..], beyond))
  {
  }

  lemma {:induction false} FeedLast(data: seq<byte>, beyond: byte)
    requires !Framed(data)
    ensures Feed(data, beyond) == if |data| < 2 then NOTHING else FAILED
  {
  }

  lemma {:induction false} FirstFrame(a: seq<byte>, b: seq<byte>)
    requires Framed(a)
    ensures var n := FrameLength(a);
            Framed(a + b) && FrameLength(a + b) == n && (a + b)[..n] == a[..n] && (a + b)[n..] == a[n..] + b
  {
  }

  /** Framing composes: complete frames and what follows them can be processed in two calls. */
  lemma {:induction false} FramingComposes(a: seq<byte>, b: seq<byte>, beyond: byte)
    requires Whole(a)
    ensures Feed(a + b, beyond) == Feed(a, Behind(b, beyond)).Plus(Feed(b, beyond))
    decreases |a|
  {
    if a == [] {
      assert a + b == b && Feed(a, Behind(b, beyond)) == NOTHING;
      PlusNothing(Feed(b, beyond));
    } else {
      var n := FrameLength(a);
      FirstFrame(a, b);
      FeedFirst(a + b, beyond);
      FeedFirst(a, Behind(b, beyond));
      hide Feed, Read, Whole;
      FramingComposes(a[n..], b, beyond);
      PlusAssoc(Read(a[..n], Kind(a, Behind(b, beyond))), Feed(a[n..], Behind(b, beyond)), Feed(b, beyond));
    }
  }

  /** The byte behind the buffer does not matter exactly when the frames do not end in one of length 2. */
  lemma {:induction false} BeyondIgnoredIff(data: seq<byte>)
    ensures (forall x, y :: Feed(data, x) == Feed(data, y)) <==> !EndsShort(data)
  {
    if EndsShort(data) {
      BeyondMatters(data);
    } else {
      forall x, y ensures Feed(data, x) == Feed(data, y) {
        BeyondIgnored(data, x, y);
      }
    }
  }

  lemma {:induction false} BeyondIgnored(data: seq<byte>, x: byte, y: byte)
    requires !EndsShort(data)
    ensures Feed(data, x) == Feed(data, y)
    decreases |data|
  {
    if Framed(data) {
      BeyondIgnored(data[FrameLength(data)..], x, y);
    }
  }

  /** With an A behind it the last frame is one more error than with a blank. */
  lemma {:induction false} BeyondMatters(data: seq<byte>)
    requires EndsShort(data)
    ensures Feed(data, LETTER_A).errors == Feed(data, BLANK).errors + 1
    decreases |data|
  {
    if |data| > 2 {
      BeyondMatters(data[FrameLength(data)..]);
    } else {
      assert data[2..] == [];
    }
  }

  /** Complete frames, then at most one framing error, at the first place that no frame fits. */
  lemma {:induction false} OneFramingError(data: seq<byte>, beyond: byte)
    ensures var k := WholePrefix(data);
            && Whole(data[..k]) && !Framed(data[k..])
            && Feed(data, beyond) ==
               Feed(data[..k], Behind(data[k..], beyond)).Plus(if |data| - k >= 2 then FAILED else NOTHING)
  {
    var k := WholePrefix(data);
    PrefixWhole(data);
    assert data == data[..k] + data[k..];
    FramingComposes(data[..k], data[k..], beyond);
  }

  lemma {:induction false} PrefixWhole(data: seq<byte>)
    ensures var k := WholePrefix(data); Whole(data[..k]) && !Framed(data[k..])
    decreases |data|
  {
    if Framed(data) {
      var n, k := FrameLength(data), WholePrefix(data);
      PrefixWhole(data[n..]);
      assert data[..k][n..] == data[n..][..k - n] && data[k..] == data[n..][k - n..];
      assert Framed(data[..k]);
    }
  }

  function FrameCount(data: seq<byte>): nat
    decreases |data|
  {
    if Framed(data) then 1 + FrameCount(data[FrameLength(data)..]) else 0
  }

  /** Every callback is one counted message, and no frame counts twice. */
  lemma {:induction false} OncePerFrame(data: seq<byte>, beyond: byte)
    ensures var t := Feed(data, beyond);
            t.messages == |t.events| && t.messages + t.errors <= FrameCount(data) + 1
    decreases |data|
  {
    if Framed(data) {
      OncePerFrame(data[FrameLength(data)..], beyond);
    }
  }

  // ----- the writer's frames -----

  const STAMP: seq<byte> := [0x00, 0x00, 0x00, 0x00, 0x0B, 0x8B, 0x8B, 0x00]

  datatype Message =
    | AddMessage(id: uint64, symbol: seq<byte>, side: byte, price: int64, quantity: uint32)
    | CancelMessage(id: uint64)

  function Frame(m: Message): (frame: seq<byte>)
    ensures |frame| == if m.AddMessage? then 35 else 23
  {
    match m
    case AddMessage(id, symbol, side, price, quantity) =>
      [0x00, 0x23, LETTER_A] + STAMP + Digits(id, 8) + SymbolField(symbol) + [side]
      + Digits(Wrap32(price), 4) + Digits(quantity, 4) + [0x00]
    case CancelMessage(id) =>
      [0x00, 0x17, LETTER_X] + STAMP + Digits(id, 8) + [0x00, 0x00, 0x00, 0x64]
  }

  lemma {:induction false} FourDigits(a: byte, b: byte, c: byte, d: byte, x: nat)
    requires x == ((a * 256 + b) * 256 + c) * 256 + d
    ensures Digits(x, 4) == [a, b, c, d]
  {
    assert Digits(x, 0) == [] && x / 256 == (a * 256 + b) * 256 + c && x / 256 / 256 == a * 256 + b;
    assert Digits(x / 256 / 256 / 256, 1) == [] + [a] == [a];
    assert Digits(x / 256 / 256, 2) == [a] + [b] == [a, b];
    assert Digits(x / 256, 3) == [a, b] + [c] == [a, b, c];
  }

  lemma {:induction false} EightDigits(x: nat)
    requires x < 0x1_0000_0000
    ensures Digits(x, 8) == [0, 0, 0, 0] + Digits(x, 4)
  {
    var y := x / 256 / 256 / 256 / 256;
    assert y == 0;
    FourDigits(0, 0, 0, 0, y);
    assert Digits(x / 256 / 256 / 256, 5) == [0, 0, 0, 0] + [x / 256 / 256 / 256 % 256];
    assert Digits(x / 256 / 256, 6) == Digits(x / 256 / 256 / 256, 5) + [x / 256 / 256 % 256];
    assert Digits(x / 256, 7) == Digits(x / 256 / 256, 6) + [x / 256 % 256];
    assert Digits(x, 4) == Digits(x / 256, 3) + [x % 256];
    assert Digits(x / 256, 3) == Digits(x / 256 / 256, 2) + [x / 256 % 256];
    assert Digits(x / 256 / 256, 2) == Digits(x / 256 / 256 / 256, 1) + [x / 256 / 256 % 256];
    assert Digits(x / 256 / 256 / 256, 1) == [x / 256 / 256 / 256 % 256];
  }

  lemma {:induction false} SampleDigits()
    ensures Digits(1001, 8) == [0, 0, 0, 0, 0, 0, 0x03, 0xE9]
    ensures Digits(10000, 4) == [0, 0, 0x27, 0x10] && Digits(100, 4) == [0, 0, 0, 0x64]
  {
    EightDigits(1001);
    FourDigits(0, 0, 0x03, 0xE9, 1001);
    FourDigits(0, 0, 0x27, 0x10, 10000);
    FourDigits(0, 0, 0, 0x64, 100);
    hide Digits;
  }

  lemma {:induction false} SampleSymbol()
    ensures SymbolField(['A' as int, 'A' as int, 'P' as int, 'L' as int]) == [0x41, 0x41, 0x50, 0x4C, 0, 0]
  {
    var s := [0x41, 0x41, 0x50, 0x4C];
    CStringClean(s);
    hide CString;
    assert SymbolField(s) == s + Zeros(2);
    assert Zeros(2) == [0, 0];
  }

  /** A buy of 100 AAPL at 10000 under id 1001, byte for byte. */
  lemma {:induction false} SampleAdd()
    ensures Frame(AddMessage(1001, ['A' as int, 'A' as int, 'P' as int, 'L' as int], 'B' as int, 10000, 100))
            == [0x00, 0x23, 0x41] + [0, 0, 0, 0, 0x0B, 0x8B, 0x8B, 0] + [0, 0, 0, 0, 0, 0, 0x03, 0xE9]
               + [0x41, 0x41, 0x50, 0x4C, 0, 0] + [0x42] + [0, 0, 0x27, 0x10] + [0, 0, 0, 0x64] + [0]
  {
    hide Digits, SymbolField;
    SampleDigits();
    SampleSymbol();
  }

  /** And its cancel. */
  lemma {:induction false} SampleCancel()
    ensures Frame(CancelMessage(1001))
            == [0x00, 0x17, 0x58] + [0, 0, 0, 0, 0x0B, 0x8B, 0x8B, 0] + [0, 0, 0, 0, 0, 0, 0x03, 0xE9]
               + [0, 0, 0, 0x64]
  {
    hide Digits;
    SampleDigits();
  }

  function Encode(ms: seq<Message>): seq<byte> {
    if ms == [] then [] else Frame(ms[0]) + Encode(ms[1..])
  }

  lemma {:induction false} EncodeNext(ms: seq<Message>, m: Message)
    ensures Encode(ms + [m]) == Encode(ms) + Frame(m)
  {
    hide Frame;
    if ms == [] {
      assert Encode([m]) == Frame(m) + Encode([m][1..]);
    } else {
      EncodeNext(ms[1..], m);
      assert (ms + [m])[1..] == ms[1..] + [m];
    }
  }

  /** What the parser hands over for a message: the symbol as the field carries it, the price modulo 2^32. */
  function Received(m: Message): Event {
    match m
    case AddMessage(id, symbol, side, price, quantity) =>
      Added(id, SymbolIn(SymbolField(symbol)), side == LETTER_B, Wrap32(price), quantity, Big(STAMP))
    case CancelMessage(id) => Event.Cancelled(id)
  }

  /** What the message meant. */
  function Meant(m: Message): Event {
    match m
    case AddMessage(id, symbol, side, price, quantity) =>
      Added(id, symbol, side == LETTER_B, price, quantity, Big(STAMP))
    case CancelMessage(id) => Event.Cancelled(id)
  }

  function ReceivedAll(ms: seq<Message>): (es: seq<Event>)
    ensures |es| == |ms| && forall i :: 0 <= i < |ms| ==> es[i] == Received(ms[i])
  {
    seq(|ms|, i requires 0 <= i < |ms| => Received(ms[i]))
  }

  predicate Faithful(m: Message) {
    m.AddMessage? ==>
      && 0 <= m.price < 0x1_0000_0000
      && 0 !in m.symbol && |m.symbol| <= 6 && !(|m.symbol| == 6 && m.symbol[5] == BLANK)
  }

  lemma {:induction false} Powers()
    ensures Pow256(1) == 0x100 && Pow256(2) == 0x1_0000 && Pow256(3) == 0x100_0000 && Pow256(4) == 0x1_0000_0000
    ensures Pow256(8) == 0x1_0000_0000_0000_0000
  {
  }

  lemma {:induction false} FullDigits(x: nat, n: nat)
    requires x < Pow256(n)
    ensures Big(Digits(x, n)) == x
  {
    BigDigits(x, n);
    DivUnique(x, Pow256(n), 0, x);
  }

  /** Where the parser looks is where the writer wrote. */
  lemma {:induction false} AddSlices(m: Message)
    requires m.AddMessage?
    ensures var f := Frame(m);
            && f[3..11] == STAMP && f[11..19] == Digits(m.id, 8) && f[19..25] == SymbolField(m.symbol)
            && f[25] == m.side && f[26..30] == Digits(Wrap32(m.price), 4) && f[30..34] == Digits(m.quantity, 4)
  {
  }

  lemma {:induction false} AddRead(m: Message)
    requires m.AddMessage?
    ensures Read(Frame(m), LETTER_A) == Fired(Received(m))
  {
    Powers();
    FullDigits(m.id, 8);
    FullDigits(Wrap32(m.price), 4);
    FullDigits(m.quantity, 4);
    AddSlices(m);
    hide Big, Digits, SymbolField, SymbolIn, Pow256, Frame;
  }

  lemma {:induction false} CancelRead(m: Message)
    requires m.CancelMessage?
    ensures Read(Frame(m), LETTER_X) == Fired(Received(m))
  {
    Powers();
    FullDigits(m.id, 8);
    assert Frame(m)[11..19] == Digits(m.id, 8);
  }

  // ----- what the parser reads where -----

  /** Each kind of frame is read from its own length on; shorter is an error, and any other kind is passed over. */
  lemma {:induction false} ReadLengths(frame: seq<byte>, kind: byte)
    ensures kind in {'A' as int, 'F' as int, 'U' as int} ==> (Read(frame, kind) == FAILED <==> |frame| < 35)
    ensures kind == 'X' as int ==> (Read(frame, kind) == FAILED <==> |frame| < 23)
    ensures kind in {'E' as int, 'C' as int} ==> (Read(frame, kind) == FAILED <==> |frame| < 27)
    ensures kind !in {'A' as int, 'F' as int, 'U' as int, 'X' as int, 'E' as int, 'C' as int}
            <==> Read(frame, kind) == NOTHING
    ensures Read(frame, kind) == FAILED || Read(frame, kind) == NOTHING
            || (|Read(frame, kind).events| == 1 && Read(frame, kind).messages == 1 && Read(frame, kind).errors == 0)
  {
  }

  /** The n-byte number at this offset of the frame is x. */
  predicate Holds(frame: seq<byte>, at: nat, n: nat, x: nat) {
    at + n <= |frame| && x < Pow256(n) && frame[at..at + n] == Digits(x, n)
  }

  lemma {:induction false} HoldsField(frame: seq<byte>, at: nat, n: nat, x: nat)
    requires Holds(frame, at, n, x)
    ensures Field(frame, at, n) == x
  {
    FullDigits(x, n);
  }

  /** An add frame: time stamp, id, symbol, side, price, quantity. */
  lemma {:induction false} AddFields(frame: seq<byte>, kind: byte, time: nat, id: nat, price: nat, quantity: nat)
    requires |frame| >= 35 && kind in {'A' as int, 'F' as int}
    requires Holds(frame, 3, 8, time) && Holds(frame, 11, 8, id)
    requires Holds(frame, 26, 4, price) && Holds(frame, 30, 4, quantity)
    ensures Read(frame, kind).events
            == [Added(id, SymbolIn(frame[19..25]), frame[25] == 'B' as int, price, quantity, time)]
  {
    HoldsField(frame, 3, 8, time);
    HoldsField(frame, 11, 8, id);
    HoldsField(frame, 26, 4, price);
    HoldsField(frame, 30, 4, quantity);
    hide Field, Holds, SymbolIn;
  }

  /** A replace frame: id, new quantity, new price. */
  lemma {:induction false} ReplaceFields(frame: seq<byte>, id: nat, quantity: nat, price: nat)
    requires |frame| >= 35
    requires Holds(frame, 11, 8, id) && Holds(frame, 27, 4, quantity) && Holds(frame, 31, 4, price)
    ensures Read(frame, 'U' as int).events == [Modified(id, quantity, price)]
  {
    HoldsField(frame, 11, 8, id);
    HoldsField(frame, 27, 4, quantity);
    HoldsField(frame, 31, 4, price);
    hide Field, Holds;
  }

  /** An executed frame: id and quantity. */
  lemma {:induction false} ExecutedFields(frame: seq<byte>, kind: byte, id: nat, quantity: nat)
    requires |frame| >= 27 && kind in {'E' as int, 'C' as int}
    requires Holds(frame, 11, 8, id) && Holds(frame, 19, 4, quantity)
    ensures Read(frame, kind).events == [Executed(id, quantity)]
  {
    HoldsField(frame, 11, 8, id);
    HoldsField(frame, 19, 4, quantity);
    hide Field, Holds;
  }

  lemma {:induction false} CancelFields(frame: seq<byte>, id: nat)
    requires |frame| >= 23 && Holds(frame, 11, 8, id)
    ensures Read(frame, 'X' as int).events == [Event.Cancelled(id)]
  {
    HoldsField(frame, 11, 8, id);
    hide Field, Holds;
  }

  lemma {:induction false} FrameHeader(m: Message)
    ensures var f := Frame(m);
            Framed(f) && FrameLength(f) == |f| && f[2] == if m.AddMessage? then LETTER_A else LETTER_X
  {
  }

  /** Every list of written messages comes back complete, in order and without error. */
  lemma {:induction false} RoundTrip(ms: seq<Message>, beyond: byte)
    ensures Feed(Encode(ms), beyond) == Tally(ReceivedAll(ms), |ms|, 0)
  {
    hide Frame, Read, Received, Feed, Encode;
    NothingEncoded(beyond);
    if ms != [] {
      RoundTrip(ms[1..], beyond);
      EncodeFirst(ms);
      var f, rest := Frame(ms[0]), Encode(ms[1..]);
      FrameHeader(ms[0]);
      FirstFrame(f, rest);
      FeedFirst(f + rest, beyond);
      if ms[0].AddMessage? {
        AddRead(ms[0]);
      } else {
        CancelRead(ms[0]);
      }
      assert ReceivedAll(ms) == [Received(ms[0])] + ReceivedAll(ms[1..]);
    }
  }

  lemma {:induction false} NothingEncoded(beyond: byte)
    ensures Encode([]) == [] && Feed([], beyond) == NOTHING
  {
  }

  lemma {:induction false} EncodeFirst(ms: seq<Message>)
    requires ms != []
    ensures Encode(ms) == Frame(ms[0]) + Encode(ms[1..])
  {
  }

  /** A message comes back as it was meant exactly when its price fits 32 bits and its symbol survives. */
  lemma {:induction false} FaithfulIff(m: Message)
    ensures Received(m) == Meant(m) <==> Faithful(m)
  {
    if m.AddMessage? {
      SymbolSurvivesIff(m.symbol);
    }
  }

  function MeantAll(ms: seq<Message>): (es: seq<Event>)
    ensures |es| == |ms| && forall i :: 0 <= i < |ms| ==> es[i] == Meant(ms[i])
  {
    seq(|ms|, i requires 0 <= i < |ms| => Meant(ms[i]))
  }

  /** A written list is processed to exactly what was meant if and only if each message is one the format can carry. */
  lemma {:induction false} RoundTripIff(ms: seq<Message>, beyond: byte)
    ensures Feed(Encode(ms), beyond) == Tally(MeantAll(ms), |ms|, 0) <==> forall i :: 0 <= i < |ms| ==> Faithful(ms[i])
  {
    RoundTrip(ms, beyond);
    hide Feed, Received, Meant, Faithful;
    forall i | 0 <= i < |ms| ensures Received(ms[i]) == Meant(ms[i]) <==> Faithful(ms[i]) {
      FaithfulIff(ms[i]);
    }
    if forall i :: 0 <= i < |ms| ==> Faithful(ms[i]) {
      assert ReceivedAll(ms) == MeantAll(ms);
    } else {
      var i :| 0 <= i < |ms| && !Faithful(ms[i]);
      assert ReceivedAll(ms)[i] != MeantAll(ms)[i];
    }
  }

  // ----- the parser -----

  /** Shifts n bytes into a number; it never outgrows n bytes, so nothing is shifted out. */
  method ReadBig(data: seq<byte>, at: nat, n: nat) returns (value: nat)
    requires at + n <= |data|
    ensures value == Field(data, at, n) && value < Pow256(n)
  {
    value := 0;
    var i := 0;
    while i < n
      invariant 0 <= i <= n && value == Field(data, at, i)
    {
      assert data[at..at + i + 1][..i] == data[at..at + i];
      value := value * 256 + data[at + i];
      i := i + 1;
    }
    BigBound(data[at..at + n]);
  }

  /** Some bytes, and zeros behind them. */
  ghost predicate Padded(a: array<byte>, done: seq<byte>)
    reads a
  {
    |done| <= a.Length && a[..] == done + Zeros(a.Length - |done|)
  }

  /** Copies at most six bytes, up to a NUL, into a cleared buffer. */
  method CopySymbol(frame: seq<byte>, at: nat, buffer: array<byte>)
    requires at + 6 <= |frame| && buffer.Length == 8 && Padded(buffer, [])
    modifies buffer
    ensures var s := CString(frame[at..at + 6]); |s| <= 6 && 0 !in s && Padded(buffer, s)
  {
    ghost var s := CString(frame[at..at + 6]);
    CStringClean(frame[at..at + 6]);
    hide CString;
    var i := 0;
    while i < 6 && frame[at + i] != 0
      invariant 0 <= i <= |s| && Padded(buffer, s[..i])
    {
      assert i < |s| && frame[at..at + 6][i] == s[i];
      buffer[i] := frame[at + i];
      i := i + 1;
    }
  }

  /** Trims blanks from the sixth character down; a shorter string has a NUL there and keeps its blanks. */
  method TrimSymbol(buffer: array<byte>, ghost s: seq<byte>)
    requires |s| <= 6 && 0 !in s && buffer.Length == 8 && Padded(buffer, s)
    modifies buffer
    ensures CString(buffer[..]) == if |s| == 6 then TrimBlanks(s) else s
  {
    var j := 5;
    ghost var kept := s;
    while j >= 0 && buffer[j] == BLANK
      invariant -1 <= j <= 5 && |kept| <= 6 && 0 !in kept && Padded(buffer, kept)
      invariant if |s| == 6 then |kept| == j + 1 && TrimBlanks(kept) == TrimBlanks(s) else kept == s && j == 5
    {
      assert buffer[..][j] == BLANK;
      buffer[j] := 0;
      kept := kept[..j];
      j := j - 1;
    }
    CStringPadded(kept, 8 - |kept|);
    TrimBlanksShorter(kept);
    assert j >= 0 ==> buffer[..][j] == buffer[j];
  }

  method ReadSymbol(frame: seq<byte>, at: nat) returns (symbol: seq<byte>)
    requires at + 6 <= |frame|
    ensures symbol == SymbolIn(frame[at..at + 6])
  {
    var buffer := new byte[8](_ => 0);
    CopySymbol(frame, at, buffer);
    TrimSymbol(buffer, CString(frame[at..at + 6]));
    symbol := CString(buffer[..]);
  }

  class FeedHandler {
    var messageCount: nat
    var errorCount: nat
    /** What the registered callbacks have been given. */
    var fired: seq<Event>

    constructor ()
      ensures Seen() == NOTHING
    {
      messageCount, errorCount, fired := 0, 0, [];
    }

    function Seen(): Tally
      reads this
    {
      Tally(fired, messageCount, errorCount)
    }

    method ParseAddOrder(frame: seq<byte>)
      modifies this
      ensures Seen() == old(Seen()).Plus(Read(frame, LETTER_A))
    {
      if |frame| < 35 {
        errorCount := errorCount + 1;
        return;
      }
      var id := ReadBig(frame, 11, 8);
      var symbol := ReadSymbol(frame, 19);
      var isBuy := frame[25] == LETTER_B;
      var price := ReadBig(frame, 26, 4);
      var quantity := ReadBig(frame, 30, 4);
      var timestamp := ReadBig(frame, 3, 8);
      fired := fired + [Added(id, symbol, isBuy, price, quantity, timestamp)];
      messageCount := messageCount + 1;
    }

    method ParseOrderCancel(frame: seq<byte>)
      modifies this
      ensures Seen() == old(Seen()).Plus(Read(frame, LETTER_X))
    {
      if |frame| < 23 {
        errorCount := errorCount + 1;
        return;
      }
      var id := ReadBig(frame, 11, 8);
      fired := fired + [Event.Cancelled(id)];
      messageCount := messageCount + 1;
    }

    method ParseOrderReplace(frame: seq<byte>)
      modifies this
      ensures Seen() == old(Seen()).Plus(Read(frame, LETTER_U))
    {
      if |frame| < 35 {
        errorCount := errorCount + 1;
        return;
      }
      var id := ReadBig(frame, 11, 8);
      var quantity := ReadBig(frame, 27, 4);
      var price := ReadBig(frame, 31, 4);
      fired := fired + [Modified(id, quantity, price)];
      messageCount := messageCount + 1;
    }

    method ParseOrderExecuted(frame: seq<byte>)
      modifies this
      ensures Seen() == old(Seen()).Plus(Read(frame, LETTER_E))
    {
      if |frame| < 27 {
        errorCount := errorCount + 1;
        return;
      }
      var id := ReadBig(frame, 11, 8);
      var quantity := ReadBig(frame, 19, 4);
      fired := fired + [Executed(id, quantity)];
      messageCount := messageCount + 1;
    }

    /** Reads frame after frame; stops at the first bytes that cannot be one. */
    method Process(data: seq<byte>, beyond: byte)
      modifies this
      ensures Seen() == old(Seen()).Plus(Feed(data, beyond))
    {
      hide Feed, Read;
      var at := 0;
      assert data[0..] == data;
      while at + 2 <= |data|
        invariant 0 <= at <= |data|
        invariant Seen().Plus(Feed(data[at..], beyond)) == old(Seen()).Plus(Feed(data, beyond))
        decreases |data| - at
      {
        var high: int := data[at];
        var length := high * 256 + data[at + 1];
        ghost var rest, seen := data[at..], Seen();
        if length < 2 || at + length > |data| {
          FeedLast(rest, beyond);
          errorCount := errorCount + 1;
          PlusNothing(Seen());
          assert Seen() == seen.Plus(FAILED);
          return;
        }
        var kind := if at + 2 < |data| then data[at + 2] else beyond;
        FeedFirst(rest, beyond);
        assert rest[..length] == data[at..at + length] && rest[length..] == data[at + length..];
        PlusAssoc(seen, Read(rest[..length], kind), Feed(rest[length..], beyond));
        Dispatch(kind, data[at..at + length]);
        at := at + length;
      }
      FeedLast(data[at..], beyond);
      PlusNothing(Seen());
    }

    method Dispatch(kind: byte, frame: seq<byte>)
      modifies this
      ensures Seen() == old(Seen()).Plus(Read(frame, kind))
    {
      if kind == LETTER_A || kind == LETTER_F {
        ParseAddOrder(frame);
      } else if kind == LETTER_X {
        ParseOrderCancel(frame);
      } else if kind == LETTER_U {
        ParseOrderReplace(frame);
      } else if kind == LETTER_E || kind == LETTER_C {
        ParseOrderExecuted(frame);
      }
      assert fired + [] == fired;
    }
  }

  // ----- the writer -----

  /** The sample file under construction. */
  class SampleWriter {
    var file: seq<byte>
    ghost var written: seq<Message>

    /** The file is the frames of the messages written, in order. */
    ghost predicate Valid()
      reads this
    {
      file == Encode(written)
    }

    constructor ()
      ensures Valid() && written == []
    {
      file, written := [], [];
    }

    /** Stores the n bytes of a number, most significant first, by shifting and masking. */
    static method PutBig(msg: array<byte>, at: nat, x: nat, n: nat, ghost done: seq<byte>)
      requires Padded(msg, done) && at == |done| && at + n <= msg.Length
      modifies msg
      ensures Padded(msg, done + Digits(x, n))
    {
      var i := 0;
      while i < n
        invariant 0 <= i <= n && Padded(msg, done + Digits(x, n)[..i])
      {
        DigitAt(x, n, i);
        msg[at + i] := x / Pow256(n - 1 - i) % 256;
        i := i + 1;
      }
      assert Digits(x, n)[..n] == Digits(x, n);
    }

    static method PutByte(msg: array<byte>, at: nat, x: byte, ghost done: seq<byte>)
      requires Padded(msg, done) && at == |done| < msg.Length
      modifies msg
      ensures Padded(msg, done + [x])
    {
      msg[at] := x;
    }

    /** The first three bytes and the fixed timestamp. */
    static method PutHeader(msg: array<byte>, kind: byte)
      requires 11 <= msg.Length < 256 && Padded(msg, [])
      modifies msg
      ensures Padded(msg, [0x00, msg.Length, kind] + STAMP)
    {
      hide Zeros;
      ghost var behind := msg[11..];
      ZerosBehind(msg.Length, 11);
      msg[0], msg[1], msg[2] := 0x00, msg.Length, kind;
      msg[3], msg[4], msg[5], msg[6] := 0x00, 0x00, 0x00, 0x00;
      msg[7], msg[8], msg[9], msg[10] := 0x0B, 0x8B, 0x8B, 0x00;
      assert msg[11..] == behind && msg[..] == msg[..11] + msg[11..];
      assert msg[..11] == [0x00, msg.Length, kind] + STAMP;
    }

    static lemma {:induction false} ZerosBehind(n: nat, k: nat)
      requires k <= n
      ensures ([] + Zeros(n))[k..] == Zeros(n - k)
    {
    }

    static method PutSymbol(msg: array<byte>, at: nat, symbol: seq<byte>, ghost done: seq<byte>)
      requires Padded(msg, done) && at == |done| && at + 6 <= msg.Length
      modifies msg
      ensures Padded(msg, done + SymbolField(symbol))
    {
      hide CString;
      CStringClean(symbol);
      ghost var s := CString(symbol);
      var i := 0;
      while i < 6 && i < |symbol| && symbol[i] != 0
        invariant 0 <= i <= 6 && i <= |s| && Padded(msg, done + s[..i])
      {
        msg[at + i] := symbol[i];
        i := i + 1;
      }
    }

    method WriteAddOrder(id: uint64, symbol: seq<byte>, side: byte, price: int64, quantity: uint32)
      requires Valid()
      modifies this
      ensures Valid() && written == old(written) + [AddMessage(id, symbol, side, price, quantity)]
    {
      hide Digits, SymbolField, Padded;
      var msg := new byte[35](_ => 0);
      ghost var done := [0x00, 0x23, LETTER_A] + STAMP;
      NoneDone(msg);
      PutHeader(msg, LETTER_A);
      PutBig(msg, 11, id, 8, done);
      done := done + Digits(id, 8);
      PutSymbol(msg, 19, symbol, done);
      done := done + SymbolField(symbol);
      PutByte(msg, 25, side, done);
      done := done + [side];
      PutBig(msg, 26, Wrap32(price), 4, done);
      done := done + Digits(Wrap32(price), 4);
      PutBig(msg, 30, quantity, 4, done);
      done := done + Digits(quantity, 4);
      OneMore(msg, done);
      EncodeNext(written, AddMessage(id, symbol, side, price, quantity));
      file, written := file + msg[..], written + [AddMessage(id, symbol, side, price, quantity)];
    }

    static lemma {:induction false} NoneDone(msg: array<byte>)
      requires forall i :: 0 <= i < msg.Length ==> msg[i] == 0
      ensures Padded(msg, [])
    {
    }

    static lemma {:induction false} OneMore(msg: array<byte>, done: seq<byte>)
      requires Padded(msg, done) && |done| == msg.Length - 1
      ensures msg[..] == done + [0x00]
    {
    }

    method WriteCancelOrder(id: uint64)
      requires Valid()
      modifies this
      ensures Valid() && written == old(written) + [CancelMessage(id)]
    {
      var msg := new byte[23](_ => 0);
      ghost var done := [0x00, 0x17, LETTER_X] + STAMP;
      NoneDone(msg);
      PutHeader(msg, LETTER_X);
      PutBig(msg, 11, id, 8, done);
      done := done + Digits(id, 8);
      msg[19], msg[20], msg[21], msg[22] := 0x00, 0x00, 0x00, 0x64;
      assert msg[..] == done + [0x00, 0x00, 0x00, 0x64];
      EncodeNext(written, CancelMessage(id));
      file, written := file + msg[..], written + [CancelMessage(id)];
    }
  }
}
