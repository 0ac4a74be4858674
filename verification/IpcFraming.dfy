/** Messages over a datagram socket: short ones go as they are, long ones as a header with the
    length and then in chunks.  A byte is a character. */
module IpcFraming {

  type Bytes = string

  const BUF_LEN: nat := 8192
  const HEAD: Bytes := "$MSGLEN$"
  const ABORT: Bytes := "LocIpcMsg::ABORT"

  /** A length is 32 bits wide. */
  const MAX_LENGTH: nat := 0xFFFF_FFFF

  function Min(a: nat, b: nat): nat {
    if a <= b then a else b
  }

  // ---------------------------------------------------------------- decimal numbers

  function Digit(d: nat): char
    requires d < 10
  {
    '0' + d as char
  }

  function Digits(n: nat): Bytes {
    if n < 10 then [Digit(n)] else Digits(n / 10) + [Digit(n % 10)]
  }

  predicate IsDigit(c: char) {
    '0' <= c <= '9'
  }

  /** Reads on from the number read so far, up to the first character that is no digit. */
  function Parse(s: Bytes, sofar: nat): nat {
    if s == [] || !IsDigit(s[0]) then sofar
    else Parse(s[1..], sofar * 10 + (s[0] - '0') as nat)
  }

  lemma {:induction false} ParseDigits(n: nat, rest: Bytes)
    ensures Parse(Digits(n) + rest, 0) == Parse(rest, n)
  {
    if n < 10 {
      assert (Digits(n) + rest)[1..] == rest;
    } else {
      assert Digits(n) + rest == Digits(n / 10) + ([Digit(n % 10)] + rest);
      ParseDigits(n / 10, [Digit(n % 10)] + rest);
      assert ([Digit(n % 10)] + rest)[1..] == rest;
    }
  }

  lemma {:induction false} ParseGrows(s: Bytes, sofar: nat)
    ensures Parse(s, sofar) >= sofar
    ensures s != [] && IsDigit(s[0]) && sofar > 0 ==> Parse(s, sofar) > sofar
  {
    if s != [] && IsDigit(s[0]) {
      ParseGrows(s[1..], sofar * 10 + (s[0] - '0') as nat);
    }
  }

  /** The number printed is read back exactly when no digit follows it. */
  lemma NumberReadBack(n: nat, rest: Bytes)
    requires n > 0
    ensures Parse(Digits(n) + rest, 0) == n <==> rest == [] || !IsDigit(rest[0])
  {
    ParseDigits(n, rest);
    ParseGrows(rest, n);
  }

  // ---------------------------------------------------------------- sending

  function Chunks(data: Bytes): seq<Bytes> {
    if data == [] then []
    else if |data| <= BUF_LEN then [data]
    else [data[..BUF_LEN]] + Chunks(data[BUF_LEN..])
  }

  function Header(length: nat): Bytes {
    HEAD + Digits(length)
  }

  function Frames(data: Bytes): seq<Bytes> {
    if |data| <= BUF_LEN then [data] else [Header(|data|)] + Chunks(data)
  }

  // ---------------------------------------------------------------- receiving

  /** The string resized: cut, or filled up with zeros. */
  function Resize(s: Bytes, n: nat): Bytes {
    if n <= |s| then s[..n] else s + seq(n - |s|, _ => '\0')
  }

  /** What a datagram received into the string at a position leaves in it; what does not fit
      is lost, and what is not overwritten stays. */
  function Overlay(s: Bytes, at: nat, d: Bytes): Bytes
    requires at <= |s|
  {
    var n := Min(|d|, |s| - at);
    s[..at] + d[..n] + s[at + n..]
  }

  predicate Begins(s: Bytes, prefix: Bytes) {
    |prefix| <= |s| && s[..|prefix|] == prefix
  }

  /** The rest of a long message, received into the string from a position on; an empty
      datagram or an error ends it. */
  datatype Filled = Complete(msg: Bytes, queue: seq<Bytes>) | Failed(queue: seq<Bytes>)

  function Fill(msg: Bytes, received: nat, queue: seq<Bytes>): Filled
    requires received <= |msg|
    decreases queue
  {
    if received == |msg| then Complete(msg, queue)
    else if queue == [] then Failed([])
    else if queue[0] == [] then Failed(queue[1..])
    else Fill(Overlay(msg, received, queue[0]),
              received + Min(|queue[0]|, |msg| - received), queue[1..])
  }

  /** What the listener delivers from the datagrams in the socket until it stops: at an abort
      message or when receiving fails, as it does once there are none left. */
  function Listen(msg: Bytes, queue: seq<Bytes>): seq<Bytes>
    decreases |queue|
  {
    if queue == [] then []
    else if queue[0] == [] then Listen(Resize(msg, BUF_LEN), queue[1..])
    else
      var n := Min(|queue[0]|, BUF_LEN);
      var buffer := Overlay(Resize(msg, BUF_LEN), 0, queue[0]);
      if Begins(buffer, ABORT) then []
      else if !Begins(buffer, HEAD)
      then [buffer[..n]] + Listen(buffer[..n], queue[1..])
      else
        var filled := Fill(Resize(buffer, Parse(buffer[|HEAD|..], 0)), 0, queue[1..]);
        FillShrinks(Resize(buffer, Parse(buffer[|HEAD|..], 0)), 0, queue[1..]);
        if filled.Failed? then []
        else [filled.msg] + Listen(filled.msg, filled.queue)
  }

  lemma {:induction false} FillShrinks(msg: Bytes, received: nat, queue: seq<Bytes>)
    requires received <= |msg|
    ensures |Fill(msg, received, queue).queue| <= |queue|
    ensures Fill(msg, received, queue).Complete? ==> |Fill(msg, received, queue).msg| == |msg|
    decreases queue
  {
    if received < |msg| && queue != [] && queue[0] != [] {
      FillShrinks(Overlay(msg, received, queue[0]),
                  received + Min(|queue[0]|, |msg| - received), queue[1..]);
    }
  }

  // ---------------------------------------------------------------- round trip

  function Pow10(k: nat): nat {
    if k == 0 then 1 else 10 * Pow10(k - 1)
  }

  lemma {:induction false} DigitsLength(n: nat, k: nat)
    requires k > 0 && n < Pow10(k)
    ensures 0 < |Digits(n)| <= k
  {
    if n >= 10 {
      DigitsLength(n / 10, k - 1);
    }
  }

  lemma HeaderFits(length: nat)
    requires length <= MAX_LENGTH
    ensures |HEAD| < |Header(length)| <= |HEAD| + 10 < BUF_LEN
  {
    DigitsLength(length, 10);
  }

  /** A message is taken for itself if, with what the buffer held before showing behind it, a
      short one does not look like a header or an abort, and the header of a long one does
      not run on into a digit. */
  predicate Clean(msg: Bytes, data: Bytes)
    requires |data| <= MAX_LENGTH
  {
    var before := Resize(msg, BUF_LEN);
    HeaderFits(|data|);
    if |data| <= BUF_LEN
    then !Begins(Overlay(before, 0, data), ABORT) && !Begins(Overlay(before, 0, data), HEAD)
    else !IsDigit(before[|Header(|data|)|])
  }

  lemma OverlayWhole(s: Bytes, at: nat, d: Bytes)
    requires at + |d| <= |s|
    ensures |Overlay(s, at, d)| == |s| && Overlay(s, at, d)[..at + |d|] == s[..at] + d
  {
  }

  lemma {:induction false} FillChunks(msg: Bytes, received: nat, data: Bytes, rest: seq<Bytes>)
    requires received <= |msg| && |data| == |msg| - received
    ensures Fill(msg, received, Chunks(data) + rest) == Complete(msg[..received] + data, rest)
    decreases |data|
  {
    if data == [] {
      assert Chunks(data) + rest == rest;
      assert msg[..received] + data == msg;
    } else {
      hide Overlay, Chunks;
      var chunk, data' := data[..Min(|data|, BUF_LEN)], data[Min(|data|, BUF_LEN)..];
      ChunksFirst(data);
      assert Chunks(data) + rest == [chunk] + (Chunks(data') + rest);
      assert ([chunk] + (Chunks(data') + rest))[1..] == Chunks(data') + rest;
      OverlayWhole(msg, received, chunk);
      FillChunks(Overlay(msg, received, chunk), received + |chunk|, data', rest);
      assert chunk + data' == data;
    }
  }

  lemma ChunksFirst(data: Bytes)
    requires data != []
    ensures Chunks(data) == [data[..Min(|data|, BUF_LEN)]] + Chunks(data[Min(|data|, BUF_LEN)..])
  {
    if |data| <= BUF_LEN {
      assert data[..|data|] == data && data[|data|..] == [];
    }
  }

  /** What the listener makes of the header of a long message: the length it reads. */
  lemma HeaderRead(msg: Bytes, length: nat)
    requires 0 < length <= MAX_LENGTH
    ensures |Header(length)| < BUF_LEN
    ensures var before := Resize(msg, BUF_LEN);
            var buffer, read := Overlay(before, 0, Header(length)),
                                Parse(Overlay(before, 0, Header(length))[|HEAD|..], 0);
            && Begins(buffer, HEAD) && !Begins(buffer, ABORT)
            && (read == length <==> !IsDigit(before[|Header(length)|]))
  {
    HeaderFits(length);
    var before := Resize(msg, BUF_LEN);
    var buffer := Overlay(before, 0, Header(length));
    var rest := before[|Header(length)|..];
    assert buffer[..|HEAD|] == HEAD;
    assert buffer[0] != ABORT[0];
    assert buffer[|HEAD|..] == Digits(length) + rest;
    NumberReadBack(length, rest);
  }

  /** What the listener does with the first datagram. */
  lemma ListenFirst(msg: Bytes, d: Bytes, queue: seq<Bytes>)
    requires d != [] && |d| <= BUF_LEN
    ensures var buffer := Overlay(Resize(msg, BUF_LEN), 0, d);
            Listen(msg, [d] + queue) ==
              if Begins(buffer, ABORT) then []
              else if !Begins(buffer, HEAD) then [d] + Listen(d, queue)
              else Deliver(Fill(Resize(buffer, Parse(buffer[|HEAD|..], 0)), 0, queue))
  {
    var buffer := Overlay(Resize(msg, BUF_LEN), 0, d);
    assert ([d] + queue)[1..] == queue;
    assert buffer[..|d|] == d;
  }

  function Deliver(filled: Filled): seq<Bytes> {
    if filled.Failed? then [] else [filled.msg] + Listen(filled.msg, filled.queue)
  }

  /** A clean message is delivered byte for byte in one call, and what follows is received
      into a buffer that holds it. */
  lemma DeliversClean(msg: Bytes, data: Bytes, rest: seq<Bytes>)
    requires data != [] && |data| <= MAX_LENGTH && Clean(msg, data)
    ensures Listen(msg, Frames(data) + rest) == [data] + Listen(data, rest)
  {
    hide Listen, Overlay, Resize, Fill, Parse, Chunks, Begins, Header;
    if |data| <= BUF_LEN {
      ListenFirst(msg, data, rest);
    } else {
      HeaderRead(msg, |data|);
      HeaderFits(|data|);
      var head := Header(|data|);
      var buffer := Overlay(Resize(msg, BUF_LEN), 0, head);
      assert Frames(data) + rest == [head] + (Chunks(data) + rest);
      ListenFirst(msg, head, Chunks(data) + rest);
      ResizeLength(buffer, |data|);
      FillChunks(Resize(buffer, |data|), 0, data, rest);
      assert Resize(buffer, |data|)[..0] + data == data;
    }
  }

  lemma ResizeLength(s: Bytes, n: nat)
    ensures |Resize(s, n)| == n
  {
  }

  /** A message that is not clean is not delivered as it was sent: what is delivered first, if
      anything, is something else, whatever follows; only a short message that looks like a
      header must be the last, since it swallows what follows, which may look like it. */
  lemma SpoilsUnclean(msg: Bytes, data: Bytes, rest: seq<Bytes>)
    requires data != [] && |data| <= MAX_LENGTH && !Clean(msg, data)
    requires || rest == [] || |data| > BUF_LEN
             || Begins(Overlay(Resize(msg, BUF_LEN), 0, data), ABORT)
    ensures var got := Listen(msg, Frames(data) + rest); got == [] || got[0] != data
  {
    hide Listen, Overlay, Resize, Parse, Chunks, Header;
    var d := if |data| <= BUF_LEN then data else Header(|data|);
    var queue := if |data| <= BUF_LEN then rest else Chunks(data) + rest;
    if |data| > BUF_LEN {
      HeaderRead(msg, |data|);
    }
    HeaderFits(|data|);
    assert Frames(data) + rest == [d] + queue;
    ListenFirst(msg, d, queue);
    var buffer := Overlay(Resize(msg, BUF_LEN), 0, d);
    if Begins(buffer, HEAD) {
      var read := Parse(buffer[|HEAD|..], 0);
      ResizeLength(buffer, read);
      FillShrinks(Resize(buffer, read), 0, queue);
      var filled := Fill(Resize(buffer, read), 0, queue);
      assert filled.Complete? ==> Deliver(filled)[0] == filled.msg;
    }
  }

  /** Such a message: sent twice it is delivered once. */
  lemma HeaderTwice()
    ensures var d := HEAD + "9"; Listen([], Frames(d) + Frames(d)) == [d]
  {
    hide Listen, Overlay, Resize;
    var d := HEAD + "9";
    var buffer := Overlay(Resize([], BUF_LEN), 0, d);
    NineRead();
    ListenFirst([], d, [d]);
    assert Frames(d) + Frames(d) == [d] + [d];
    ResizeLength(buffer, 9);
    OverlayWhole(Resize(buffer, 9), 0, d);
    var filled := Overlay(Resize(buffer, 9), 0, d);
    assert |d| == 9 && Resize(buffer, 9)[..0] + d == d;
    assert filled[..9] == filled == d;
    assert [d][1..] == [];
    assert Fill(filled, 9, []) == Complete(filled, []);
    assert Fill(Resize(buffer, 9), 0, [d]) == Complete(d, []);
    ListenNothing(d);
  }

  lemma NineRead()
    ensures var buffer := Overlay(Resize([], BUF_LEN), 0, HEAD + "9");
            && Begins(buffer, HEAD) && !Begins(buffer, ABORT) && Parse(buffer[|HEAD|..], 0) == 9
  {
    var d := HEAD + "9";
    var before := Resize([], BUF_LEN);
    var buffer := Overlay(before, 0, d);
    assert buffer[..|HEAD|] == HEAD;
    assert buffer[0] != ABORT[0];
    assert Digits(9) == "9";
    assert buffer[|HEAD|..] == Digits(9) + before[|d|..];
    NumberReadBack(9, before[|d|..]);
  }

  /** From a fresh buffer, a message that is not empty is delivered byte for byte in one call
      exactly when it is long, or begins with neither the header nor the abort text. */
  lemma RoundTrip(data: Bytes)
    requires data != [] && |data| <= MAX_LENGTH
    ensures Listen([], Frames(data)) == [data] <==>
              || |data| > 8192
              || (!Begins(data, "$MSGLEN$") && !Begins(data, "LocIpcMsg::ABORT"))
  {
    hide Listen, Frames;
    FreshClean(data);
    if Clean([], data) {
      DeliversClean([], data, []);
      assert Frames(data) + [] == Frames(data);
      ListenNothing(data);
    } else {
      SpoilsUnclean([], data, []);
      assert Frames(data) + [] == Frames(data);
    }
  }

  lemma ListenNothing(msg: Bytes)
    ensures Listen(msg, []) == []
  {
  }

  lemma FreshClean(data: Bytes)
    requires data != [] && |data| <= MAX_LENGTH
    ensures Clean([], data) <==>
              |data| > BUF_LEN || (!Begins(data, HEAD) && !Begins(data, ABORT))
  {
    HeaderFits(|data|);
    if |data| <= BUF_LEN {
      ZerosHide(data, HEAD);
      ZerosHide(data, ABORT);
    }
  }

  lemma ZerosHide(data: Bytes, prefix: Bytes)
    requires |data| <= BUF_LEN && |prefix| <= BUF_LEN
    requires forall c :: c in prefix ==> c != '\0'
    ensures Begins(Overlay(Resize([], BUF_LEN), 0, data), prefix) <==> Begins(data, prefix)
  {
    var buffer := Overlay(Resize([], BUF_LEN), 0, data);
    if |data| < |prefix| {
      assert buffer[|data|] == '\0' && prefix[|data|] in prefix;
    } else {
      assert buffer[..|prefix|] == data[..|prefix|];
    }
  }

  // ---------------------------------------------------------------- on the wire

  lemma {:induction false} ChunksAre(data: Bytes)
    ensures |Chunks(data)| == (|data| + 8191) / 8192
    ensures forall j :: 0 <= j < |Chunks(data)| ==>
              Chunks(data)[j] == data[8192 * j..Min(8192 * (j + 1), |data|)]
    decreases |data|
  {
    if data != [] {
      var first, rest := Min(|data|, BUF_LEN), data[Min(|data|, BUF_LEN)..];
      ChunksFirst(data);
      ChunksAre(rest);
      hide Chunks;
      var chunks := Chunks(data);
      forall j | 0 <= j < |chunks|
        ensures chunks[j] == data[8192 * j..Min(8192 * (j + 1), |data|)]
      {
        if j > 0 {
          assert chunks[j] == Chunks(rest)[j - 1];
          SliceOfTail(data, 8192, 8192 * (j - 1), Min(8192 * j, |rest|));
        }
      }
    }
  }

  lemma SliceOfTail(data: Bytes, n: nat, lo: nat, hi: nat)
    requires n <= |data| && lo <= hi <= |data| - n
    ensures data[n..][lo..hi] == data[n + lo..n + hi]
  {
  }

  /** A message of up to 8192 bytes is one datagram; a longer one is a datagram with the header
      text and its length in decimal, and then its bytes in datagrams of 8192. */
  lemma FramesAre(data: Bytes)
    ensures |data| <= 8192 ==> Frames(data) == [data]
    ensures |data| > 8192 ==>
              && |Frames(data)| == 1 + (|data| + 8191) / 8192
              && Frames(data)[0] == "$MSGLEN$" + Digits(|data|)
              && forall j :: 0 < j < |Frames(data)| ==>
                   Frames(data)[j] == data[8192 * (j - 1)..Min(8192 * j, |data|)]
  {
    ChunksAre(data);
    if |data| > 8192 {
      forall j | 0 < j < |Frames(data)|
        ensures Frames(data)[j] == data[8192 * (j - 1)..Min(8192 * j, |data|)]
      {
        assert Frames(data)[j] == Chunks(data)[j - 1];
      }
    }
  }

  /** The most significant digit comes first. */
  lemma DigitsAre()
    ensures Digits(0) == "0" && Digits(8193) == "8193" && Digits(4_294_967_295) == "4294967295"
  {
    assert Digits(8) == "8" && Digits(81) == Digits(8) + "1" && Digits(819) == Digits(81) + "9";
    assert Digits(4) == "4" && Digits(42) == Digits(4) + "2" && Digits(429) == Digits(42) + "9";
    assert Digits(4294) == Digits(429) + "4" && Digits(42949) == Digits(4294) + "9";
    assert Digits(429496) == Digits(42949) + "6" && Digits(4294967) == Digits(429496) + "7";
    assert Digits(42949672) == Digits(4294967) + "2" && Digits(429496729) == Digits(42949672) + "9";
  }

  /** A datagram that begins with the abort text ends the listening, whatever follows. */
  lemma AbortStops(msg: Bytes, data: Bytes, rest: seq<Bytes>)
    requires |data| <= 8192 && Begins(data, "LocIpcMsg::ABORT")
    ensures Listen(msg, [data] + rest) == []
  {
    hide Listen, Overlay, Resize;
    ListenFirst(msg, data, rest);
    ResizeLength(msg, BUF_LEN);
    var before := Resize(msg, BUF_LEN);
    OverlayWhole(before, 0, data);
    var buffer := Overlay(before, 0, data);
    assert before[..0] + data == data;
    assert buffer[..|ABORT|] == buffer[..|data|][..|ABORT|] == data[..|ABORT|];
  }

  lemma {:induction false} FillPartial(msg: Bytes, received: nat, data: Bytes, j: nat)
    requires received <= |msg| && |data| == |msg| - received && j < |Chunks(data)|
    ensures Fill(msg, received, Chunks(data)[..j]).Failed?
    decreases |data|
  {
    if j > 0 {
      hide Overlay;
      var chunk, data' := data[..Min(|data|, BUF_LEN)], data[Min(|data|, BUF_LEN)..];
      ChunksFirst(data);
      OverlayWhole(msg, received, chunk);
      assert Chunks(data)[..j] == [chunk] + Chunks(data')[..j - 1];
      assert ([chunk] + Chunks(data')[..j - 1])[1..] == Chunks(data')[..j - 1];
      FillPartial(Overlay(msg, received, chunk), received + |chunk|, data', j - 1);
    }
  }

  lemma {:induction false} FillInterrupted(msg: Bytes, received: nat, data: Bytes, j: nat,
                                           rest: seq<Bytes>)
    requires received <= |msg| && |data| == |msg| - received && j < |Chunks(data)|
    ensures Fill(msg, received, Chunks(data)[..j] + ([[]] + rest)) == Failed(rest)
    decreases |data|
  {
    if j == 0 {
      assert Chunks(data)[..j] + ([[]] + rest) == [[]] + rest;
      assert ([[]] + rest)[1..] == rest;
    } else {
      hide Overlay;
      var chunk, data' := data[..Min(|data|, BUF_LEN)], data[Min(|data|, BUF_LEN)..];
      ChunksFirst(data);
      OverlayWhole(msg, received, chunk);
      var queue := Chunks(data')[..j - 1] + ([[]] + rest);
      assert Chunks(data)[..j] + ([[]] + rest) == [chunk] + queue;
      assert ([chunk] + queue)[1..] == queue;
      FillInterrupted(Overlay(msg, received, chunk), received + |chunk|, data', j - 1, rest);
    }
  }

  /** An empty datagram among those of a long message ends the listening, whatever follows. */
  lemma InterruptionStops(msg: Bytes, data: Bytes, k: nat, rest: seq<Bytes>)
    requires 8192 < |data| <= MAX_LENGTH && Clean(msg, data) && 0 < k < |Frames(data)|
    ensures Listen(msg, Frames(data)[..k] + ([[]] + rest)) == []
  {
    hide Listen, Overlay, Resize, Parse, Chunks, Begins, Header;
    HeaderRead(msg, |data|);
    HeaderFits(|data|);
    var head := Header(|data|);
    var queue := Chunks(data)[..k - 1] + ([[]] + rest);
    assert Frames(data)[..k] + ([[]] + rest) == [head] + queue;
    ListenFirst(msg, head, queue);
    var buffer := Overlay(Resize(msg, BUF_LEN), 0, head);
    ResizeLength(buffer, |data|);
    FillInterrupted(Resize(buffer, |data|), 0, data, k - 1, rest);
  }

  /** Nothing is delivered of a clean long message of which only the first datagrams arrive. */
  lemma PartNotDelivered(msg: Bytes, data: Bytes, k: nat)
    requires 8192 < |data| <= MAX_LENGTH && Clean(msg, data) && 0 < k < |Frames(data)|
    ensures Listen(msg, Frames(data)[..k]) == []
  {
    hide Listen, Overlay, Resize, Parse, Chunks, Begins, Header;
    HeaderRead(msg, |data|);
    HeaderFits(|data|);
    var head := Header(|data|);
    assert Frames(data)[..k] == [head] + Chunks(data)[..k - 1];
    ListenFirst(msg, head, Chunks(data)[..k - 1]);
    var buffer := Overlay(Resize(msg, BUF_LEN), 0, head);
    ResizeLength(buffer, |data|);
    FillPartial(Resize(buffer, |data|), 0, data, k - 1);
  }

  // ---------------------------------------------------------------- sequences of messages

  function AllFrames(messages: seq<Bytes>): seq<Bytes> {
    if messages == [] then [] else Frames(messages[0]) + AllFrames(messages[1..])
  }

  function NonEmpty(messages: seq<Bytes>): seq<Bytes> {
    if messages == [] then []
    else if messages[0] == [] then NonEmpty(messages[1..])
    else [messages[0]] + NonEmpty(messages[1..])
  }

  /** Each message is clean behind the one before it; empty ones leave no trace. */
  predicate CleanRun(msg: Bytes, messages: seq<Bytes>)
    decreases |messages|
  {
    messages != [] ==>
      if messages[0] == [] then CleanRun(Resize(msg, BUF_LEN), messages[1..])
      else
        && |messages[0]| <= MAX_LENGTH && Clean(msg, messages[0])
        && CleanRun(messages[0], messages[1..])
  }

  /** What the buffer holds after the messages. */
  function Held(msg: Bytes, messages: seq<Bytes>): Bytes
    decreases |messages|
  {
    if messages == [] then msg
    else if messages[0] == [] then Held(Resize(msg, BUF_LEN), messages[1..])
    else Held(messages[0], messages[1..])
  }

  /** A run of clean messages is delivered in order, byte for byte, one call each, whatever
      follows; empty messages are not delivered. */
  lemma {:induction false} DeliversAll(msg: Bytes, messages: seq<Bytes>, rest: seq<Bytes>)
    requires CleanRun(msg, messages)
    ensures Listen(msg, AllFrames(messages) + rest) ==
              NonEmpty(messages) + Listen(Held(msg, messages), rest)
    decreases |messages|
  {
    if messages == [] {
      assert AllFrames(messages) + rest == rest;
    } else {
      var data, more := messages[0], messages[1..];
      var queue := AllFrames(more) + rest;
      assert AllFrames(messages) + rest == Frames(data) + queue;
      if data == [] {
        assert (Frames(data) + queue)[1..] == queue;
        DeliversAll(Resize(msg, BUF_LEN), more, rest);
      } else {
        DeliversClean(msg, data, queue);
        DeliversAll(data, more, rest);
      }
    }
  }

  /** After any run of clean messages the next one arrives as sent exactly when it is clean
      too. */
  lemma DeliversNextIff(messages: seq<Bytes>, data: Bytes)
    requires CleanRun([], messages) && data != [] && |data| <= MAX_LENGTH
    ensures Listen([], AllFrames(messages) + Frames(data)) == NonEmpty(messages) + [data] <==>
              Clean(Held([], messages), data)
  {
    hide Listen, Clean, CleanRun, Frames;
    var before, held := NonEmpty(messages), Held([], messages);
    DeliversAll([], messages, Frames(data));
    var got := Listen(held, Frames(data));
    assert Frames(data) + [] == Frames(data);
    if Clean(held, data) {
      DeliversClean(held, data, []);
      ListenNothing(data);
    } else {
      SpoilsUnclean(held, data, []);
      assert before + got == before + [data] ==> got == [data] by {
        assert (before + got)[|before|..] == got && (before + [data])[|before|..] == [data];
      }
    }
  }

  /** No short message looks like a header behind the one before it, unless nothing follows. */
  predicate HeaderFree(msg: Bytes, messages: seq<Bytes>)
    decreases |messages|
  {
    messages != [] ==>
      var data, more := messages[0], messages[1..];
      if data == [] then HeaderFree(Resize(msg, BUF_LEN), more)
      else
        && |data| <= MAX_LENGTH && HeaderFree(data, more)
        && (|data| <= BUF_LEN && Begins(Overlay(Resize(msg, BUF_LEN), 0, data), HEAD) ==>
              AllFrames(more) == [])
  }

  /** Then a whole sequence arrives as sent exactly when each of its messages is clean behind
      the one before it. */
  lemma {:induction false} ArrivesIff(msg: Bytes, messages: seq<Bytes>)
    requires HeaderFree(msg, messages)
    ensures Listen(msg, AllFrames(messages)) == NonEmpty(messages) <==> CleanRun(msg, messages)
    decreases |messages|
  {
    if messages != [] {
      var data, more := messages[0], messages[1..];
      var rest := AllFrames(more);
      if data == [] {
        assert AllFrames(messages)[1..] == rest;
        ArrivesIff(Resize(msg, BUF_LEN), more);
      } else if Clean(msg, data) {
        DeliversClean(msg, data, rest);
        ArrivesIff(data, more);
        var tail, sent := Listen(data, rest), NonEmpty(more);
        assert ([data] + tail)[1..] == tail && ([data] + sent)[1..] == sent;
      } else {
        UncleanLooks(msg, data);
        SpoilsUnclean(msg, data, rest);
      }
    }
  }

  lemma UncleanLooks(msg: Bytes, data: Bytes)
    requires |data| <= MAX_LENGTH && !Clean(msg, data)
    ensures || |data| > BUF_LEN
            || Begins(Overlay(Resize(msg, BUF_LEN), 0, data), ABORT)
            || Begins(Overlay(Resize(msg, BUF_LEN), 0, data), HEAD)
  {
  }

  /** Two messages of which the second does not arrive: a digit of the first shows behind the
      header of the second. */
  lemma StaleDigitSpoils()
    ensures var zeros, long := seq(16, _ => '0'), seq(10_000, _ => 'x');
            && CleanRun([], [zeros]) && |long| > BUF_LEN
            && Listen([], AllFrames([zeros]) + Frames(long)) != NonEmpty([zeros]) + [long]
  {
    var zeros: Bytes, long: Bytes := seq(16, _ => '0'), seq(10_000, _ => 'x');
    var none: seq<Bytes> := [];
    assert [zeros][1..] == none;
    assert zeros[0] != HEAD[0] && zeros[0] != ABORT[0];
    FreshClean(zeros);
    HeaderFits(10_000);
    ThousandsDigits();
    assert Resize(zeros, BUF_LEN)[13] == zeros[13];
    DeliversNextIff([zeros], long);
  }

  lemma ThousandsDigits()
    ensures |Header(10_000)| == 13
  {
    assert Digits(10_000) == Digits(1_000) + [Digit(0)];
    assert Digits(1_000) == Digits(100) + [Digit(0)];
    assert Digits(100) == Digits(10) + [Digit(0)];
    assert Digits(10) == Digits(1) + [Digit(0)];
  }
}

/** The loops that send and receive, over a socket that keeps datagrams whole and in order. */
module IpcProgram {
  import opened IpcFraming

  class Socket {
    var queue: seq<Bytes>
    /** How many more datagrams it takes before it reports errors. */
    var room: nat

    method SendTo(d: Bytes) returns (rv: int)
      modifies this
      ensures rv == if old(room) == 0 then -1 else |d|
      ensures queue == if old(room) == 0 then old(queue) else old(queue) + [d]
      ensures room == if old(room) == 0 then 0 else old(room) - 1
    {
      if room == 0 {
        return -1;
      }
      queue, room, rv := queue + [d], room - 1, |d|;
    }

    /** Receives into the string from a position on. */
    method RecvFrom(msg: Bytes, at: nat) returns (rv: int, msg': Bytes)
      requires at <= |msg|
      modifies this`queue
      ensures old(queue) == [] ==> rv == -1 && msg' == msg && queue == []
      ensures old(queue) != [] ==>
                && rv == Min(|old(queue)[0]|, |msg| - at)
                && msg' == Overlay(msg, at, old(queue)[0]) && queue == old(queue)[1..]
    {
      if queue == [] {
        return -1, msg;
      }
      rv, msg' := Min(|queue[0]|, |msg| - at), Overlay(msg, at, queue[0]);
      queue := queue[1..];
    }
  }

  lemma SentMore(sent: seq<Bytes>, data: Bytes, from: nat)
    requires from < |data|
    ensures sent + Chunks(data[from..]) ==
              sent + [data[from..from + Min(|data| - from, BUF_LEN)]] +
              Chunks(data[from + Min(|data| - from, BUF_LEN)..])
  {
    ChunksFirst(data[from..]);
    assert data[from..][..Min(|data| - from, BUF_LEN)] ==
           data[from..from + Min(|data| - from, BUF_LEN)];
    assert data[from..][Min(|data| - from, BUF_LEN)..] ==
           data[from + Min(|data| - from, BUF_LEN)..];
  }

  class LocIpc {
    /** The messages given to onReceive. */
    var received: seq<Bytes>
    var mStopRequested: bool

    /** Sends the frames up to the first one that the socket refuses. */
    method SendData(fd: Socket, data: Bytes) returns (result: bool)
      modifies fd
      ensures var frames := Frames(data);
              && result == (|frames| <= old(fd.room))
              && fd.queue == old(fd.queue) + frames[..Min(|frames|, old(fd.room))]
    {
      ghost var frames := Frames(data);
      result := true;
      if |data| <= BUF_LEN {
        var rv := fd.SendTo(data);
        result := rv >= 0;
      } else {
        var head := HEAD + Digits(|data|);
        var rv := fd.SendTo(head);
        if rv < 0 {
          return false;
        }
        var sentBytes := 0;
        ghost var sent := [head];
        while sentBytes < |data|
          invariant 0 <= sentBytes <= |data|
          invariant frames == sent + Chunks(data[sentBytes..])
          invariant fd.queue == old(fd.queue) + sent && fd.room + |sent| == old(fd.room)
        {
          var partLen := Min(|data| - sentBytes, BUF_LEN);
          var part := data[sentBytes..sentBytes + partLen];
          SentMore(sent, data, sentBytes);
          rv := fd.SendTo(part);
          if rv < 0 {
            assert frames[..|sent|] == sent;
            return false;
          }
          sent := sent + [part];
          sentBytes := sentBytes + rv;
        }
        assert frames == sent;
      }
    }

    /** Receives the rest of a long message. */
    method ReceiveRest(fd: Socket, msg: Bytes, headBytes: nat) returns (nBytes: int, msg': Bytes)
      requires headBytes > 0
      modifies fd`queue
      ensures var filled := Fill(msg, 0, old(fd.queue));
              if nBytes > 0 then filled == Complete(msg', fd.queue)
              else filled == Failed(fd.queue)
    {
      msg', nBytes := msg, headBytes;
      var msgLenReceived := 0;
      while msgLenReceived < |msg'| && nBytes > 0
        invariant nBytes > 0 ==>
                    && 0 <= msgLenReceived <= |msg'|
                    && Fill(msg', msgLenReceived, fd.queue) == Fill(msg, 0, old(fd.queue))
        invariant nBytes <= 0 ==> Fill(msg, 0, old(fd.queue)) == Failed(fd.queue)
        decreases |fd.queue|, nBytes
      {
        nBytes, msg' := fd.RecvFrom(msg', msgLenReceived);
        msgLenReceived := msgLenReceived + nBytes;
      }
    }

    /** Receives one message, if there is one, and tells whether to go on. */
    method ReceiveOne(fd: Socket, msg: Bytes) returns (goOn: bool, msg': Bytes)
      modifies this`received, fd`queue
      ensures goOn ==> |fd.queue| < |old(fd.queue)|
      ensures received + (if goOn then Listen(msg', fd.queue) else []) ==
                old(received) + Listen(msg, old(fd.queue))
    {
      hide Overlay, Resize, Fill, Parse, Listen, Begins;
      ghost var before := Resize(msg, BUF_LEN);
      ListenOnce(msg, fd.queue);
      ResizeLength(msg, BUF_LEN);
      var nBytes, buffer := fd.RecvFrom(Resize(msg, BUF_LEN), 0);
      if nBytes < 0 {
        return false, buffer;
      }
      OverlayPrefix(before, old(fd.queue)[0]);
      if nBytes == 0 {
        return true, buffer;
      }
      if Begins(buffer, ABORT) {
        return false, buffer;
      }
      goOn := true;
      if !Begins(buffer, HEAD) {
        msg' := buffer[..nBytes];
        received := received + [msg'];
      } else {
        var msgLen := Parse(buffer[|HEAD|..], 0);
        FillShrinks(Resize(buffer, msgLen), 0, fd.queue);
        nBytes, msg' := ReceiveRest(fd, Resize(buffer, msgLen), nBytes);
        if nBytes <= 0 {
          return false, msg';
        }
        received := received + [msg'];
      }
    }

    /** Listens until an abort message or an error; returns whether that was asked for. */
    method StartListeningBlocking(fd: Socket) returns (stopped: bool)
      modifies this, fd`queue
      ensures received == old(received) + Listen([], old(fd.queue))
      ensures stopped == old(mStopRequested) && !mStopRequested
    {
      var msg, goOn := "", true;
      while goOn
        invariant received + (if goOn then Listen(msg, fd.queue) else []) ==
                    old(received) + Listen([], old(fd.queue))
        invariant mStopRequested == old(mStopRequested)
        decreases goOn, |fd.queue|
      {
        hide Listen;
        goOn, msg := ReceiveOne(fd, msg);
      }
      stopped := mStopRequested;
      mStopRequested := false;
    }

    lemma ListenOnce(msg: Bytes, queue: seq<Bytes>)
      ensures queue == [] ==> Listen(msg, queue) == []
      ensures queue != [] ==>
                var buffer := Overlay(Resize(msg, BUF_LEN), 0, queue[0]);
                var n := Min(|queue[0]|, BUF_LEN);
                Listen(msg, queue) ==
                  if queue[0] == [] then Listen(Resize(msg, BUF_LEN), queue[1..])
                  else if Begins(buffer, ABORT) then []
                  else if !Begins(buffer, HEAD) then [buffer[..n]] + Listen(buffer[..n], queue[1..])
                  else Deliver(Fill(Resize(buffer, Parse(buffer[|HEAD|..], 0)), 0, queue[1..]))
    {
    }

    lemma OverlayPrefix(s: Bytes, d: Bytes)
      ensures |Overlay(s, 0, d)| == |s|
      ensures d == [] ==> Overlay(s, 0, d) == s
    {
    }
  }
}
