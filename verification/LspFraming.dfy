/**
 Content-Length framing of messages on a byte stream (LSP 3.17, "Base Protocol"): serializing a message
 and the incremental parser that finds messages in a growing buffer.
 */
module LspFraming {
  import opened Wrappers
  import opened Sequences
  import opened TextLines

  type Byte = b: int | 0 <= b < 256

  type Bytes = seq<Byte>

  const HEADER_SEPARATOR: Bytes := [13, 10, 13, 10]

  // ---- Text --------------------------------------------------------------------------------------

  /** Decoding as "ascii" drops the highest bit of each byte. */
  function AsciiText(bytes: Bytes): string {
    seq(|bytes|, i requires 0 <= i < |bytes| => (bytes[i] % 128) as char)
  }

  predicate IsAscii(text: string) {
    forall i | 0 <= i < |text| :: text[i] as int < 128
  }

  function AsciiBytes(text: string): Bytes
    requires IsAscii(text)
  {
    seq(|text|, i requires 0 <= i < |text| => text[i] as int)
  }

  lemma AsciiRoundTrip(text: string)
    requires IsAscii(text)
    ensures AsciiText(AsciiBytes(text)) == text
  {
  }

  predicate IsDigit(c: char) {
    '0' <= c <= '9'
  }

  predicate AllDigits(s: string) {
    forall i | 0 <= i < |s| :: IsDigit(s[i])
  }

  function Lower(c: char): char {
    if 'A' <= c <= 'Z' then (c as int + 32) as char else c
  }

  function DigitRun(s: string): (n: nat)
    ensures n <= |s| && forall i | 0 <= i < n :: IsDigit(s[i])
  {
    if s != "" && IsDigit(s[0]) then 1 + DigitRun(s[1..]) else 0
  }

  function DigitValue(c: char): nat
    requires IsDigit(c)
  {
    c as int - '0' as int
  }

  function Value(digits: string): nat
    requires AllDigits(digits)
  {
    if digits == "" then 0 else 10 * Value(digits[..|digits| - 1]) + DigitValue(digits[|digits| - 1])
  }

  function ParseDigits(s: string): Option<nat> {
    var n := DigitRun(s);
    if n == 0 then None else Some(Value(s[..n]))
  }

  /** `parseInt(s, 10)`: leading blanks, a sign, as many digits as there are; anything may follow. */
  function ParseInt(s: string): Option<int> {
    ParseSigned(TrimStart(s))
  }

  function ParseSigned(t: string): Option<int> {
    var signed := t != "" && (t[0] == '-' || t[0] == '+');
    match ParseDigits(if signed then t[1..] else t)
    case None => None
    case Some(n) => Some(WithSign(if signed then t[..1] else "", n))
  }

  function WithSign(sign: string, magnitude: int): int {
    if sign == "-" then -magnitude else magnitude
  }

  /** Blanks, a sign or none, all the digits that follow, and a rest. */
  ghost predicate ReadsAs(s: string, blanks: string, sign: string, digits: string, rest: string) {
    && s == blanks + (sign + (digits + rest)) && Blank(blanks) && (sign == "" || sign == "+" || sign == "-")
    && digits != "" && AllDigits(digits) && (rest == "" || !IsDigit(rest[0]))
  }

  lemma {:induction false} DigitRunMeans(digits: string, rest: string)
    requires AllDigits(digits) && (rest == "" || !IsDigit(rest[0]))
    ensures DigitRun(digits + rest) == |digits|
  {
    if digits == "" {
      assert digits + rest == rest;
    } else {
      assert (digits + rest)[1..] == digits[1..] + rest;
      DigitRunMeans(digits[1..], rest);
    }
  }

  lemma {:induction false} DigitRunStops(s: string)
    ensures DigitRun(s) < |s| ==> !IsDigit(s[DigitRun(s)])
  {
    if s != "" && IsDigit(s[0]) {
      DigitRunStops(s[1..]);
    }
  }

  lemma {:induction false} TrimStartCut(s: string)
    ensures s == s[..|s| - |TrimStart(s)|] + TrimStart(s) && Blank(s[..|s| - |TrimStart(s)|])
  {
    if s != "" && IsSpace(s[0]) {
      TrimStartCut(s[1..]);
      var n := |s| - |TrimStart(s)|;
      assert s[..n] == [s[0]] + s[1..][..n - 1];
    }
  }

  /** The number that is read is the one that stands there, whatever follows it. */
  lemma ParseIntMeans(s: string, blanks: string, sign: string, digits: string, rest: string)
    requires ReadsAs(s, blanks, sign, digits, rest)
    ensures ParseInt(s) == Some(WithSign(sign, Value(digits)))
  {
    hide Value, WithSign, ReadsAs, TrimStart, AllDigits, DigitRun, Blank;
    Parts(s, blanks, sign, digits, rest);
    TrimStartMeans(blanks, sign + (digits + rest));
    DigitRunMeans(digits, rest);
  }

  lemma Parts(s: string, blanks: string, sign: string, digits: string, rest: string)
    requires ReadsAs(s, blanks, sign, digits, rest)
    ensures s == blanks + (sign + (digits + rest)) && Blank(blanks) && AllDigits(digits) && digits != ""
    ensures rest == "" || !IsDigit(rest[0])
    ensures var t := sign + (digits + rest);
            && t != "" && !IsSpace(t[0]) && (digits + rest)[..|digits|] == digits
            && if sign == "" then t == digits + rest && t[0] != '-' && t[0] != '+'
               else (t[0] == '-' || t[0] == '+') && t[1..] == digits + rest && t[..1] == sign
  {
    var number := digits + rest;
    assert IsDigit(digits[0]) && number[0] == digits[0];
    if sign == "" {
      assert sign + number == number;
    }
  }

  /** A number is read only where one stands. */
  lemma ParseIntFinds(s: string) returns (blanks: string, sign: string, digits: string, rest: string)
    requires ParseInt(s).Some?
    ensures ReadsAs(s, blanks, sign, digits, rest)
  {
    hide Value, TrimStart, DigitRun, Blank, ReadsAs, WithSign, AllDigits;
    TrimStartCut(s);
    var t := TrimStart(s);
    blanks := s[..|s| - |t|];
    sign := if t != "" && (t[0] == '-' || t[0] == '+') then t[..1] else "";
    var number := t[|sign|..];
    digits, rest := number[..DigitRun(number)], number[DigitRun(number)..];
    assert t == sign + number;
    assert sign == "" || sign == "+" || sign == "-";
    Reads(blanks, sign, number);
  }

  lemma Reads(blanks: string, sign: string, number: string)
    requires Blank(blanks) && (sign == "" || sign == "+" || sign == "-") && DigitRun(number) > 0
    ensures var n := DigitRun(number);
            ReadsAs(blanks + (sign + number), blanks, sign, number[..n], number[n..])
  {
    var n := DigitRun(number);
    DigitRunStops(number);
    assert number == number[..n] + number[n..];
  }

  function Decimal(n: nat): string {
    if n < 10 then [('0' as int + n) as char] else Decimal(n / 10) + [('0' as int + n % 10) as char]
  }

  lemma {:induction false} DecimalRoundTrip(n: nat)
    ensures Decimal(n) != "" && AllDigits(Decimal(n))
    ensures Value(Decimal(n)) == n
  {
    if n < 10 {
      assert Decimal(n)[..0] == "";
    } else {
      DecimalRoundTrip(n / 10);
      assert Decimal(n)[..|Decimal(n)| - 1] == Decimal(n / 10);
    }
  }

  lemma {:induction false} DigitRunOfDigits(s: string)
    requires AllDigits(s)
    ensures DigitRun(s) == |s|
  {
    if s == "" {
    } else {
      DigitRunOfDigits(s[1..]);
    }
  }

  // ---- The header --------------------------------------------------------------------------------

  const FIELD := "content-length:"

  predicate IsLengthField(line: string) {
    |line| >= |FIELD| && forall i | 0 <= i < |FIELD| :: Lower(line[i]) == FIELD[i]
  }

  function LengthOf(lines: seq<string>): Option<nat> {
    if lines == [] then
      None
    else if IsLengthField(lines[0]) then
      match ParseInt(Trim(lines[0][|FIELD|..]))
      case None => None
      case Some(value) => if value < 0 then None else Some(value)
    else
      LengthOf(lines[1..])
  }

  /** What a length field says: a number that is not negative, or nothing. */
  predicate SaysLength(line: string, length: Option<nat>)
    requires IsLengthField(line)
  {
    match ParseInt(Trim(line[|FIELD|..]))
    case None => length.None?
    case Some(value) => length == if value < 0 then None else Some(value)
  }

  /** The first length field decides, wherever it stands; without one there is no length. */
  lemma {:induction false} LengthOfMeans(lines: seq<string>)
    ensures (forall k | 0 <= k < |lines| :: !IsLengthField(lines[k])) ==> LengthOf(lines).None?
    ensures forall k | 0 <= k < |lines| && IsLengthField(lines[k])
                       && (forall j | 0 <= j < k :: !IsLengthField(lines[j])) ::
              SaysLength(lines[k], LengthOf(lines))
  {
    hide IsLengthField, ParseInt, Trim;
    if lines == [] {
    } else if !IsLengthField(lines[0]) {
      LengthOfMeans(lines[1..]);
      forall k | 0 <= k < |lines| && IsLengthField(lines[k])
                 && (forall j | 0 <= j < k :: !IsLengthField(lines[j]))
        ensures SaysLength(lines[k], LengthOf(lines))
      {
        assert lines[1..][k - 1] == lines[k];
        assert forall j | 0 <= j < k - 1 :: lines[1..][j] == lines[j + 1];
      }
    }
  }

  function ParseContentLength(header: string): Option<nat> {
    LengthOf(SplitOn(header, "\r\n"))
  }

  // ---- One turn of the parser --------------------------------------------------------------------

  predicate SeparatorAt(buffer: Bytes, i: nat) {
    i + 4 <= |buffer| && buffer[i..i + 4] == HEADER_SEPARATOR
  }

  function FindSeparator(buffer: Bytes, from: nat): (r: Option<nat>)
    ensures r.Some? ==> from <= r.value && SeparatorAt(buffer, r.value)
    ensures forall i | from <= i < (if r.Some? then r.value else |buffer|) :: !SeparatorAt(buffer, i)
    decreases |buffer| - from
  {
    if from + 4 > |buffer| then
      None
    else if SeparatorAt(buffer, from) then
      Some(from)
    else
      FindSeparator(buffer, from + 1)
  }

  datatype Turn = Wait | Skip(rest: Bytes) | Deliver(body: Bytes, rest: Bytes)

  function NextTurn(buffer: Bytes): (t: Turn)
    ensures !t.Wait? ==> |t.rest| < |buffer|
  {
    match FindSeparator(buffer, 0)
    case None => Wait
    case Some(headerEnd) =>
      var bodyStart := headerEnd + 4;
      match ParseContentLength(AsciiText(buffer[..headerEnd]))
      case None => Skip(buffer[bodyStart..])
      case Some(length) =>
        if |buffer| < bodyStart + length then
          Wait
        else
          Deliver(buffer[bodyStart..bodyStart + length], buffer[bodyStart + length..])
  }

  /** The buffer starts with the header, and the separator after it is the first one. */
  ghost predicate Heads(buffer: Bytes, header: Bytes, rest: Bytes) {
    && buffer == header + (HEADER_SEPARATOR + rest)
    && forall i | 0 <= i < |header| :: !SeparatorAt(buffer, i)
  }

  /** The one turn to make: a header that says no length is skipped, a body is delivered once it is whole. */
  ghost predicate IsTurn(buffer: Bytes, t: Turn) {
    match t
    case Wait =>
      || (forall i: nat | i < |buffer| :: !SeparatorAt(buffer, i))
      || exists header, rest :: Heads(buffer, header, rest) && IsPart(header, rest)
    case Skip(rest) =>
      exists header :: Heads(buffer, header, rest) && ParseContentLength(AsciiText(header)).None?
    case Deliver(body, rest) =>
      exists header :: Heads(buffer, header, body + rest) && ParseContentLength(AsciiText(header)) == Some(|body|)
  }

  predicate IsPart(header: Bytes, rest: Bytes) {
    var length := ParseContentLength(AsciiText(header));
    length.Some? && |rest| < length.value
  }

  lemma HeadIsFirst(buffer: Bytes, header: Bytes, rest: Bytes)
    ensures Heads(buffer, header, rest) <==>
      && FindSeparator(buffer, 0) == Some(|header|)
      && header == buffer[..|header|] && rest == buffer[|header| + 4..]
  {
    if Heads(buffer, header, rest) {
      assert buffer[|header|..|header| + 4] == HEADER_SEPARATOR;
      assert SeparatorAt(buffer, |header|);
    }
    if FindSeparator(buffer, 0) == Some(|header|) {
      assert buffer == buffer[..|header|] + (buffer[|header|..|header| + 4] + buffer[|header| + 4..]);
    }
  }

  lemma NextTurnMeans(buffer: Bytes, t: Turn)
    ensures IsTurn(buffer, t) <==> t == NextTurn(buffer)
  {
    hide ParseContentLength, AsciiText, Heads;
    forall header, rest
      ensures Heads(buffer, header, rest) <==>
        && FindSeparator(buffer, 0) == Some(|header|)
        && header == buffer[..|header|] && rest == buffer[|header| + 4..]
    {
      HeadIsFirst(buffer, header, rest);
    }
    var h := FindSeparator(buffer, 0);
    if h.Some? {
      var header, rest := buffer[..h.value], buffer[h.value + 4..];
      assert Heads(buffer, header, rest);
      var length := ParseContentLength(AsciiText(header));
      if length.Some? && length.value <= |rest| {
        assert rest == rest[..length.value] + rest[length.value..];
      }
    }
  }

  /** The bodies found in the buffer and what stays in it. */
  datatype Drained = Drained(bodies: seq<Bytes>, rest: Bytes)

  function Drain(buffer: Bytes): Drained
    decreases |buffer|
  {
    match NextTurn(buffer)
    case Wait => Drained([], buffer)
    case Skip(rest) => Drain(rest)
    case Deliver(body, rest) => After([body], Drain(rest))
  }

  function After(bodies: seq<Bytes>, d: Drained): Drained {
    d.(bodies := bodies + d.bodies)
  }

  lemma AfterTwice(a: seq<Bytes>, b: seq<Bytes>, d: Drained)
    ensures After(a, After(b, d)) == After(a + b, d)
    ensures After([], d) == d
  {
    assert a + (b + d.bodies) == (a + b) + d.bodies;
  }

  lemma AfterBodies(a: seq<Bytes>, d: Drained)
    ensures After(a, d).bodies == a + d.bodies && After(a, d).rest == d.rest
  {
  }

  lemma SeparatorIsStable(a: Bytes, b: Bytes)
    requires FindSeparator(a, 0).Some?
    ensures FindSeparator(a + b, 0) == FindSeparator(a, 0)
  {
    var h := FindSeparator(a, 0).value;
    forall i | 0 <= i <= h ensures SeparatorAt(a + b, i) == SeparatorAt(a, i) {
      assert (a + b)[i..i + 4] == a[i..i + 4];
    }
  }

  lemma SliceOfPrefix(a: Bytes, b: Bytes, from: nat, to: nat)
    requires from <= to <= |a|
    ensures (a + b)[from..to] == a[from..to] && (a + b)[to..] == a[to..] + b
  {
  }

  /** Bytes that arrive later do not change a turn that could already be made. */
  lemma TurnIsStable(a: Bytes, b: Bytes)
    requires !NextTurn(a).Wait?
    ensures NextTurn(a + b) == NextTurn(a).(rest := NextTurn(a).rest + b)
  {
    var h := FindSeparator(a, 0).value;
    SeparatorIsStable(a, b);
    hide FindSeparator, ParseContentLength, AsciiText;
    SliceOfPrefix(a, b, 0, h);
    SliceOfPrefix(a, b, h, h + 4);
    assert a[..h] == a[0..h] && (a + b)[..h] == (a + b)[0..h];
    var length := ParseContentLength(AsciiText(a[..h]));
    if length.Some? {
      SliceOfPrefix(a, b, h + 4, h + 4 + length.value);
    }
  }

  /** Draining in two goes is draining in one. */
  lemma {:induction false} DrainInTwo(a: Bytes, b: Bytes)
    ensures Drain(a + b) == After(Drain(a).bodies, Drain(Drain(a).rest + b))
    decreases |a|
  {
    hide NextTurn, After;
    match NextTurn(a) {
      case Wait =>
        AfterTwice([], [], Drain(a + b));
      case Skip(rest) =>
        TurnIsStable(a, b);
        DrainInTwo(rest, b);
      case Deliver(body, rest) =>
        TurnIsStable(a, b);
        DrainInTwo(rest, b);
        AfterBodies([body], Drain(rest));
        AfterTwice([body], Drain(rest).bodies, Drain(Drain(rest).rest + b));
    }
  }

  lemma {:induction false} DrainLeavesNothingToDo(buffer: Bytes)
    ensures NextTurn(Drain(buffer).rest).Wait?
    decreases |buffer|
  {
    hide NextTurn;
    match NextTurn(buffer) {
      case Wait =>
      case Skip(rest) => DrainLeavesNothingToDo(rest);
      case Deliver(_, rest) => DrainLeavesNothingToDo(rest);
    }
  }

  // ---- Chunks ------------------------------------------------------------------------------------

  function Concat(chunks: seq<Bytes>): Bytes {
    if chunks == [] then [] else chunks[0] + Concat(chunks[1..])
  }

  function PushAll(buffer: Bytes, chunks: seq<Bytes>): Drained
    decreases |chunks|
  {
    if chunks == [] then
      Drained([], buffer)
    else
      var first := Drain(buffer + chunks[0]);
      After(first.bodies, PushAll(first.rest, chunks[1..]))
  }

  lemma PushOne(buffer: Bytes, chunks: seq<Bytes>)
    requires chunks != []
    ensures var first := Drain(buffer + chunks[0]);
            PushAll(buffer, chunks) == After(first.bodies, PushAll(first.rest, chunks[1..]))
  {
  }

  lemma PushNone(buffer: Bytes, chunks: seq<Bytes>)
    requires chunks == []
    ensures PushAll(buffer, chunks) == Drained([], buffer)
  {
  }

  /** However the stream is cut into chunks, the bodies and the final buffer are those of the whole stream. */
  lemma {:induction false} ChunkIndependence(buffer: Bytes, chunks: seq<Bytes>)
    requires NextTurn(buffer).Wait?
    ensures PushAll(buffer, chunks) == Drain(buffer + Concat(chunks))
    decreases |chunks|
  {
    hide NextTurn, After;
    if chunks == [] {
      assert buffer + [] == buffer;
    } else {
      hide Drain;
      var a, b := buffer + chunks[0], Concat(chunks[1..]);
      DrainLeavesNothingToDo(a);
      ChunkIndependence(Drain(a).rest, chunks[1..]);
      DrainInTwo(a, b);
      assert buffer + Concat(chunks) == a + b;
    }
  }

  // ---- The parser --------------------------------------------------------------------------------

  /** The messages of the bodies that decode; the others are dropped. */
  function Messages<M>(decode: Bytes -> Option<M>, bodies: seq<Bytes>): seq<M> {
    if bodies == [] then
      []
    else
      Message(decode, bodies[0]) + Messages(decode, bodies[1..])
  }

  function Message<M>(decode: Bytes -> Option<M>, body: Bytes): seq<M> {
    match decode(body) case Some(m) => [m] case None => []
  }

  lemma {:induction false} MessagesOfBoth<M>(decode: Bytes -> Option<M>, a: seq<Bytes>, b: seq<Bytes>)
    ensures Messages(decode, a + b) == Messages(decode, a) + Messages(decode, b)
  {
    if a == [] {
      assert a + b == b;
    } else {
      hide Message;
      MessagesOfBoth(decode, a[1..], b);
      assert (a + b)[1..] == a[1..] + b;
      Regroup(Message(decode, a[0]), Messages(decode, a[1..]), Messages(decode, b));
    }
  }

  lemma NoMessages<M>(decode: Bytes -> Option<M>)
    ensures Messages(decode, []) == []
  {
  }

  lemma OneMoreMessage<M>(decode: Bytes -> Option<M>, before: seq<M>, bodies: seq<Bytes>, body: Bytes)
    ensures before + Messages(decode, bodies + [body])
         == before + Messages(decode, bodies) + Message(decode, body)
  {
    MessagesOfBoth(decode, bodies, [body]);
    assert Messages(decode, [body][1..]) == [];
    Regroup(before, Messages(decode, bodies), Message(decode, body));
  }

  class LspParser<M> {
    const decode: Bytes -> Option<M>
    var buffer: Bytes
    /** The messages handed to the callback so far. */
    var delivered: seq<M>

    constructor (decode: Bytes -> Option<M>)
      ensures this.decode == decode && buffer == [] && delivered == []
    {
      this.decode := decode;
      buffer, delivered := [], [];
    }

    method Push(chunk: Bytes)
      modifies this
      ensures buffer == Drain(old(buffer) + chunk).rest
      ensures delivered == old(delivered) + Messages(decode, Drain(old(buffer) + chunk).bodies)
    {
      buffer := buffer + chunk;
      DrainBuffer();
    }

    /** Pushes the chunks of a stream, one after the other: the messages are those of the whole stream. */
    method Receive(chunks: seq<Bytes>)
      requires NextTurn(buffer).Wait?
      modifies this
      ensures NextTurn(buffer).Wait? && buffer == Drain(old(buffer) + Concat(chunks)).rest
      ensures delivered == old(delivered) + Messages(decode, Drain(old(buffer) + Concat(chunks)).bodies)
    {
      hide NextTurn, Drain, After, Messages, PushAll;
      ghost var bodies: seq<Bytes> := [];
      AfterTwice([], [], PushAll(buffer, chunks));
      NoMessages(decode);
      assert chunks[0..] == chunks;
      for i := 0 to |chunks|
        invariant NextTurn(buffer).Wait?
        invariant PushAll(old(buffer), chunks) == After(bodies, PushAll(buffer, chunks[i..]))
        invariant delivered == old(delivered) + Messages(decode, bodies)
      {
        ghost var first := Drain(buffer + chunks[i]);
        PushOne(buffer, chunks[i..]);
        assert chunks[i..][1..] == chunks[i + 1..];
        AfterTwice(bodies, first.bodies, PushAll(first.rest, chunks[i + 1..]));
        DrainLeavesNothingToDo(buffer + chunks[i]);
        Push(chunks[i]);
        MessagesOfBoth(decode, bodies, first.bodies);
        Regroup(old(delivered), Messages(decode, bodies), Messages(decode, first.bodies));
        bodies := bodies + first.bodies;
      }
      PushNone(buffer, chunks[|chunks|..]);
      AfterBodies(bodies, Drained([], buffer));
      assert bodies + [] == bodies;
      ChunkIndependence(old(buffer), chunks);
    }

    method DrainBuffer()
      modifies this
      ensures buffer == Drain(old(buffer)).rest
      ensures delivered == old(delivered) + Messages(decode, Drain(old(buffer)).bodies)
    {
      hide After, Messages, ParseContentLength;
      ghost var bodies: seq<Bytes> := [];
      AfterTwice([], [], Drain(buffer));
      NoMessages(decode);
      while true
        invariant Drain(old(buffer)) == After(bodies, Drain(buffer))
        invariant delivered == old(delivered) + Messages(decode, bodies)
        decreases |buffer|
      {
        AfterBodies(bodies, Drain(buffer));
        var found := FindSeparator(buffer, 0);
        if found.None? {
          assert bodies + [] == bodies;
          return;
        }
        var headerEnd := found.value;
        var header := AsciiText(buffer[..headerEnd]);
        var contentLength := ParseContentLength(header);
        if contentLength.None? {
          buffer := buffer[headerEnd + |HEADER_SEPARATOR|..];
          continue;
        }
        var bodyStart := headerEnd + |HEADER_SEPARATOR|;
        if |buffer| < bodyStart + contentLength.value {
          assert bodies + [] == bodies;
          return;
        }
        var body := buffer[bodyStart..bodyStart + contentLength.value];
        buffer := buffer[bodyStart + contentLength.value..];
        AfterTwice(bodies, [body], Drain(buffer));
        OneMoreMessage(decode, old(delivered), bodies, body);
        match decode(body) {
          case Some(message) => delivered := delivered + [message];
          case None =>
        }
        bodies := bodies + [body];
      }
    }
  }

  // ---- Serializing -------------------------------------------------------------------------------

  function Header(length: nat): string {
    "Content-Length: " + Decimal(length)
  }

  lemma HeaderIsPlain(length: nat)
    ensures IsAscii(Header(length))
    ensures forall i | 0 <= i < |Header(length)| :: Header(length)[i] != '\r'
  {
    DecimalRoundTrip(length);
    var d := Decimal(length);
    forall i | 0 <= i < |d| ensures d[i] as int < 128 && d[i] != '\r' {
      assert IsDigit(d[i]);
    }
  }

  function Serialize(body: Bytes): Bytes {
    HeaderIsPlain(|body|);
    AsciiBytes(Header(|body|)) + HEADER_SEPARATOR + body
  }

  lemma NoNewlineAt(s: string, k: nat)
    requires forall i | 0 <= i < |s| :: s[i] != '\r'
    ensures !HasAt(s, "\r\n", k)
  {
    if k + 2 <= |s| {
      assert s[k..k + 2][0] == s[k];
    }
  }

  lemma OneHeaderLine(s: string)
    requires forall i | 0 <= i < |s| :: s[i] != '\r'
    ensures SplitOn(s, "\r\n") == [s]
  {
    hide Find, HasAt;
    forall k: nat ensures !HasAt(s, "\r\n", k) {
      NoNewlineAt(s, k);
    }
  }

  lemma TrimBeforeDigits(d: string)
    requires d != "" && AllDigits(d)
    ensures TrimStart(d) == d && Trim(" " + d) == d
  {
    assert IsDigit(d[0]) && IsDigit(d[|d| - 1]);
    assert (" " + d)[1..] == d;
    assert TrimStart(" " + d) == d;
  }

  lemma ParseIntOfDigits(d: string)
    requires d != "" && AllDigits(d)
    ensures ParseInt(d) == Some(Value(d))
  {
    hide Value;
    TrimBeforeDigits(d);
    DigitRunOfDigits(d);
    assert IsDigit(d[0]);
    assert d[..|d|] == d;
  }

  lemma HeaderIsField(length: nat)
    ensures IsLengthField(Header(length)) && Header(length)[|FIELD|..] == " " + Decimal(length)
  {
    hide Decimal;
  }

  /** The header that is written is read back as the same length. */
  lemma HeaderRoundTrip(length: nat)
    ensures ParseContentLength(Header(length)) == Some(length)
  {
    hide Header, Decimal, Trim, ParseInt, IsLengthField, SplitOn;
    HeaderIsPlain(length);
    OneHeaderLine(Header(length));
    HeaderIsField(length);
    DecimalRoundTrip(length);
    TrimBeforeDigits(Decimal(length));
    ParseIntOfDigits(Decimal(length));
  }

  lemma SeparatorOfSerialized(head: Bytes, tail: Bytes)
    requires forall i | 0 <= i < |head| :: head[i] != 13
    ensures FindSeparator(head + HEADER_SEPARATOR + tail, 0) == Some(|head|)
  {
    var buffer := head + HEADER_SEPARATOR + tail;
    assert buffer[|head|..|head| + 4] == HEADER_SEPARATOR;
    forall i | 0 <= i < |head| ensures !SeparatorAt(buffer, i) {
      assert buffer[i] == head[i] != 13;
      assert i + 4 <= |buffer| ==> buffer[i..i + 4][0] == buffer[i];
    }
    assert SeparatorAt(buffer, |head|);
  }

  lemma FirstTurnOfSerialized(body: Bytes, later: Bytes)
    ensures NextTurn(Serialize(body) + later) == Deliver(body, later)
  {
    var text := Header(|body|);
    HeaderIsPlain(|body|);
    var head := AsciiBytes(text);
    var buffer := Serialize(body) + later;
    SeparatorOfSerialized(head, body + later);
    HeaderRoundTrip(|body|);
    AsciiRoundTrip(text);
    hide FindSeparator, ParseContentLength, AsciiText, Header;
    FrameParts(head, body, later);
  }

  lemma FrameParts(head: Bytes, body: Bytes, later: Bytes)
    ensures var buffer := head + HEADER_SEPARATOR + body + later;
            var bodyStart := |head| + 4;
            && buffer == head + HEADER_SEPARATOR + (body + later)
            && buffer[..|head|] == head
            && buffer[bodyStart..bodyStart + |body|] == body
            && buffer[bodyStart + |body|..] == later
  {
    var start := head + HEADER_SEPARATOR;
    Regroup(start, body, later);
    var buffer := start + (body + later);
    assert buffer[|start|..] == body + later;
  }

  function SerializeAll(bodies: seq<Bytes>): Bytes {
    if bodies == [] then [] else Serialize(bodies[0]) + SerializeAll(bodies[1..])
  }

  lemma {:induction false} DrainSerialized(bodies: seq<Bytes>)
    ensures Drain(SerializeAll(bodies)) == Drained(bodies, [])
  {
    if bodies == [] {
    } else {
      FirstTurnOfSerialized(bodies[0], SerializeAll(bodies[1..]));
      DrainSerialized(bodies[1..]);
      assert [bodies[0]] + bodies[1..] == bodies;
    }
  }

  function Encodings<M>(encode: M -> Bytes, messages: seq<M>): (bodies: seq<Bytes>)
    ensures |bodies| == |messages|
  {
    if messages == [] then [] else [encode(messages[0])] + Encodings(encode, messages[1..])
  }

  lemma {:induction false} DecodeEncodings<M(!new)>(encode: M -> Bytes, decode: Bytes -> Option<M>, messages: seq<M>)
    requires forall m :: decode(encode(m)) == Some(m)
    ensures Messages(decode, Encodings(encode, messages)) == messages
  {
    if messages == [] {
    } else {
      DecodeEncodings(encode, decode, messages[1..]);
      assert [messages[0]] + messages[1..] == messages;
      assert Encodings(encode, messages)[1..] == Encodings(encode, messages[1..]);
    }
  }

  /** Any cutting of the serialized messages delivers exactly these messages and leaves an empty buffer. */
  lemma FramingRoundTrip<M(!new)>(encode: M -> Bytes, decode: Bytes -> Option<M>, messages: seq<M>, chunks: seq<Bytes>)
    requires forall m :: decode(encode(m)) == Some(m)
    requires Concat(chunks) == SerializeAll(Encodings(encode, messages))
    ensures var pushed := PushAll([], chunks);
            Messages(decode, pushed.bodies) == messages && pushed.rest == []
  {
    ChunkIndependence([], chunks);
    assert [] + Concat(chunks) == Concat(chunks);
    DrainSerialized(Encodings(encode, messages));
    DecodeEncodings(encode, decode, messages);
  }
}
