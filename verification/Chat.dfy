/** The chat message: a four character header holding the body's length, and the framing of a stream of messages. */
module ChatMessage {
  import opened Bytes

  const HEADER_LENGTH: nat := 4
  const MAX_BODY_LENGTH: nat := 512

  const SPACE: byte := 32
  const MINUS: byte := 45
  const PLUS: byte := 43
  const ZERO: byte := 48

  datatype Option<T> = None | Some(value: T)

  // ---------- decimal text ----------

  predicate IsDigit(c: byte) {
    ZERO <= c < ZERO + 10
  }

  /** isspace in the C locale. */
  predicate IsSpace(c: byte) {
    c == SPACE || 9 <= c <= 13
  }

  /** The characters before the first zero byte. */
  function CString(s: seq<byte>): seq<byte> {
    if s == [] || s[0] == 0 then [] else [s[0]] + CString(s[1..])
  }

  function DropSpace(s: seq<byte>): (rest: seq<byte>)
    ensures |rest| <= |s|
  {
    if s != [] && IsSpace(s[0]) then DropSpace(s[1..]) else s
  }

  /** The value of the leading digits, counted on from acc. */
  function DigitsValue(s: seq<byte>, acc: nat): nat {
    if s == [] || !IsDigit(s[0]) then acc else DigitsValue(s[1..], 10 * acc + (s[0] - ZERO))
  }

  /** atoi: leading space, one sign, digits; anything else ends it. */
  function Atoi(s: seq<byte>): int {
    var t := DropSpace(s);
    if t != [] && t[0] == MINUS then 0 - DigitsValue(t[1..], 0)
    else if t != [] && t[0] == PLUS then DigitsValue(t[1..], 0)
    else DigitsValue(t, 0)
  }

  function Decimal(n: nat): (s: seq<byte>)
    ensures |s| >= 1 && forall i :: 0 <= i < |s| ==> IsDigit(s[i])
  {
    if n < 10 then [ZERO + n] else Decimal(n / 10) + [ZERO + n % 10]
  }

  function Spaces(n: nat): (s: seq<byte>)
    ensures |s| == n && forall i :: 0 <= i < n ==> s[i] == SPACE
  {
    seq(n, _ => SPACE)
  }

  /** "%4d": right-aligned in four characters. */
  function PaddedDecimal(n: nat): seq<byte> {
    var d := Decimal(n);
    if |d| < HEADER_LENGTH then Spaces(HEADER_LENGTH - |d|) + d else d
  }

  lemma {:induction false} DecimalLength(n: nat)
    requires n < 10000
    ensures |Decimal(n)| <= 4
  {
    if n >= 10 {
      assert Decimal(n) == Decimal(n / 10) + [ZERO + n % 10];
      if n >= 100 {
        assert Decimal(n / 10) == Decimal(n / 10 / 10) + [ZERO + n / 10 % 10];
        if n >= 1000 {
          assert Decimal(n / 10 / 10) == Decimal(n / 10 / 10 / 10) + [ZERO + n / 10 / 10 % 10];
          assert n / 10 / 10 / 10 < 10;
        }
      }
    }
  }

  lemma {:induction false} DigitsOfConcat(s: seq<byte>, c: byte, acc: nat)
    requires IsDigit(c) && forall i :: 0 <= i < |s| ==> IsDigit(s[i])
    ensures DigitsValue(s + [c], acc) == 10 * DigitsValue(s, acc) + (c - ZERO)
  {
    if s == [] {
      assert [c][1..] == [];
    } else {
      assert (s + [c])[1..] == s[1..] + [c];
      DigitsOfConcat(s[1..], c, 10 * acc + (s[0] - ZERO));
    }
  }

  lemma {:induction false} DecimalValue(n: nat)
    ensures DigitsValue(Decimal(n), 0) == n
  {
    if n < 10 {
      assert Decimal(n)[1..] == [];
    } else {
      DecimalValue(n / 10);
      DigitsOfConcat(Decimal(n / 10), ZERO + n % 10, 0);
    }
  }

  lemma {:induction false} SpacesDrop(n: nat, d: seq<byte>)
    requires d != [] && !IsSpace(d[0])
    ensures DropSpace(Spaces(n) + d) == d
  {
    if n == 0 {
      assert Spaces(0) + d == d;
    } else {
      assert (Spaces(n) + d)[1..] == Spaces(n - 1) + d;
      SpacesDrop(n - 1, d);
    }
  }

  lemma {:induction false} NoZeroByte(s: seq<byte>)
    requires forall i :: 0 <= i < |s| ==> s[i] != 0
    ensures CString(s) == s
  {
    if s != [] {
      NoZeroByte(s[1..]);
    }
  }

  // ---------- the header ----------

  function EncodeHeader(bodyLength: nat): (h: seq<byte>)
    requires bodyLength <= MAX_BODY_LENGTH
    ensures |h| == HEADER_LENGTH
  {
    DecimalLength(bodyLength);
    PaddedDecimal(bodyLength)
  }

  /** A negative number becomes a huge unsigned one, so it is refused with those past the limit. */
  function DecodeHeader(header: seq<byte>): (bodyLength: Option<nat>)
    ensures bodyLength.Some? ==> bodyLength.value <= MAX_BODY_LENGTH
  {
    var v := Atoi(CString(header));
    if v < 0 || v > MAX_BODY_LENGTH then None else Some(v)
  }

  lemma HeaderRoundTrip(bodyLength: nat)
    requires bodyLength <= MAX_BODY_LENGTH
    ensures DecodeHeader(EncodeHeader(bodyLength)) == Some(bodyLength)
  {
    var d := Decimal(bodyLength);
    DecimalLength(bodyLength);
    DecimalValue(bodyLength);
    NoZeroByte(EncodeHeader(bodyLength));
    SpacesDrop(HEADER_LENGTH - |d|, d);
  }

  /** The four characters: spaces, then the number's own digits, none of them a needless zero, up to the right edge. */
  lemma HeaderCharacters(bodyLength: nat) returns (k: nat)
    requires bodyLength <= MAX_BODY_LENGTH
    ensures k < HEADER_LENGTH
    ensures var h := EncodeHeader(bodyLength);
            && (forall i :: 0 <= i < k ==> h[i] == SPACE)
            && (forall i :: k <= i < HEADER_LENGTH ==> IsDigit(h[i]))
            && DigitsValue(h[k..], 0) == bodyLength
            && (h[k] == ZERO ==> k == HEADER_LENGTH - 1)
  {
    hide Decimal, DigitsValue;
    var d := Decimal(bodyLength);
    DecimalLength(bodyLength);
    DecimalValue(bodyLength);
    NoNeedlessZero(bodyLength);
    k := HEADER_LENGTH - |d|;
    var h := EncodeHeader(bodyLength);
    assert h == Spaces(k) + d;
    assert h[k..] == d;
  }

  lemma {:induction false} NoNeedlessZero(n: nat)
    ensures Decimal(n)[0] == ZERO ==> n == 0 && |Decimal(n)| == 1
  {
    if n >= 10 {
      NoNeedlessZero(n / 10);
    }
  }

  /** A header a sender might write by hand, with a sign and spaces behind, is read. */
  lemma SignedHeaderIsRead()
    ensures DecodeHeader([PLUS, ZERO + 7, SPACE, SPACE]) == Some(7)
  {
    var s: seq<byte> := [PLUS, ZERO + 7, SPACE, SPACE];
    NoZeroByte(s);
    assert s[1..] == [ZERO + 7, SPACE, SPACE] && s[1..][1..] == [SPACE, SPACE];
    assert DigitsValue(s[1..][1..], 7) == 7;
  }

  /** Tabs and line ends in front of the number are skipped like spaces, and a letter ends it. */
  lemma TabsAreSkipped()
    ensures DecodeHeader([9, 13, ZERO + 4, 120]) == Some(4)
  {
    var s: seq<byte>, t: seq<byte>, d: seq<byte>, x: seq<byte> := [9, 13, ZERO + 4, 120], [13, ZERO + 4, 120], [ZERO + 4, 120], [120];
    NoZeroByte(s);
    assert s[1..] == t && t[1..] == d && d[1..] == x;
    assert DropSpace(d) == d && DropSpace(t) == d && DropSpace(s) == d;
    assert DigitsValue(x, 4) == 4;
  }

  /** One less than nothing is refused. */
  lemma NegativeHeaderIsRefused()
    ensures DecodeHeader([MINUS, ZERO + 1, SPACE, SPACE]) == None
  {
    var s: seq<byte> := [MINUS, ZERO + 1, SPACE, SPACE];
    NoZeroByte(s);
    assert s[1..] == [ZERO + 1, SPACE, SPACE] && s[1..][1..] == [SPACE, SPACE];
    assert DigitsValue(s[1..][1..], 1) == 1;
  }

  /** One more than the limit is refused. */
  lemma LongHeaderIsRefused()
    ensures DecodeHeader([SPACE, ZERO + 5, ZERO + 1, ZERO + 3]) == None
  {
    var s: seq<byte>, d: seq<byte> := [SPACE, ZERO + 5, ZERO + 1, ZERO + 3], [ZERO + 5, ZERO + 1, ZERO + 3];
    NoZeroByte(s);
    assert s[1..] == d && DropSpace(s) == d;
    var two: seq<byte>, one: seq<byte>, none: seq<byte> := [ZERO + 1, ZERO + 3], [ZERO + 3], [];
    assert d[1..] == two && two[1..] == one && one[1..] == none;
    assert DigitsValue(none, 513) == 513 && DigitsValue(one, 51) == 513 && DigitsValue(two, 5) == 513;
  }

  // ---------- the stream ----------

  /** A message as it travels: its header as the sender wrote it, and its body. */
  datatype Message = Message(header: seq<byte>, body: seq<byte>)

  predicate WellFormed(m: Message) {
    |m.header| == HEADER_LENGTH && DecodeHeader(m.header) == Some(|m.body|)
  }

  /** What fits of a text. */
  function Clamped(text: seq<byte>): (body: seq<byte>)
    ensures |body| <= MAX_BODY_LENGTH && body <= text && (|body| < MAX_BODY_LENGTH ==> body == text)
  {
    if |text| > MAX_BODY_LENGTH then text[..MAX_BODY_LENGTH] else text
  }

  function Encoded(text: seq<byte>): Message {
    Message(EncodeHeader(|Clamped(text)|), Clamped(text))
  }

  lemma EncodedIsWellFormed(text: seq<byte>)
    ensures WellFormed(Encoded(text))
  {
    HeaderRoundTrip(|Clamped(text)|);
  }

  function OnWire(m: Message): seq<byte> {
    m.header + m.body
  }

  /** The bytes of messages written one after the other. */
  function Wire(msgs: seq<Message>): seq<byte> {
    if msgs == [] then [] else OnWire(msgs[0]) + Wire(msgs[1..])
  }

  /** What a reader makes of a stream: the messages, and where it stops, at a bad header or at the end. */
  datatype Parsed = Parsed(msgs: seq<Message>, rest: seq<byte>)

  /** The first message of a stream, if all of it is there. */
  function FirstMessage(stream: seq<byte>): (m: Option<Message>)
    ensures m.Some? ==> WellFormed(m.value) && OnWire(m.value) <= stream
  {
    if |stream| < HEADER_LENGTH then None
    else
      var n := DecodeHeader(stream[..HEADER_LENGTH]);
      if n.None? || |stream| < HEADER_LENGTH + n.value then None
      else Some(Message(stream[..HEADER_LENGTH], stream[HEADER_LENGTH..HEADER_LENGTH + n.value]))
  }

  function Parse(stream: seq<byte>): Parsed
    decreases |stream|
  {
    var m := FirstMessage(stream);
    if m.None? then Parsed([], stream)
    else
      var p := Parse(stream[HEADER_LENGTH + |m.value.body|..]);
      Parsed([m.value] + p.msgs, p.rest)
  }

  lemma ParseOne(m: Message, tail: seq<byte>)
    requires WellFormed(m)
    ensures FirstMessage(OnWire(m) + tail) == Some(m)
    ensures Parse(OnWire(m) + tail) == Parsed([m] + Parse(tail).msgs, Parse(tail).rest)
  {
    hide DecodeHeader;
    var stream := OnWire(m) + tail;
    assert stream[..HEADER_LENGTH] == m.header;
    assert stream[HEADER_LENGTH..HEADER_LENGTH + |m.body|] == m.body;
    assert stream[HEADER_LENGTH + |m.body|..] == tail;
  }

  /** A reader recovers any sequence of well-formed messages, and goes on with what follows them. */
  lemma {:induction false} ParseRecovers(msgs: seq<Message>, rest: seq<byte>)
    requires forall i :: 0 <= i < |msgs| ==> WellFormed(msgs[i])
    ensures Parse(Wire(msgs) + rest) == Parsed(msgs + Parse(rest).msgs, Parse(rest).rest)
  {
    hide WellFormed, Parse, OnWire;
    if msgs == [] {
      assert Wire(msgs) + rest == rest;
    } else {
      assert Wire(msgs) + rest == OnWire(msgs[0]) + (Wire(msgs[1..]) + rest);
      ParseRecovers(msgs[1..], rest);
      ParseOne(msgs[0], Wire(msgs[1..]) + rest);
      assert msgs + Parse(rest).msgs == [msgs[0]] + (msgs[1..] + Parse(rest).msgs);
    }
  }

  /** What a reader accepted, written out again, is what it read, byte for byte. */
  lemma {:induction false} ParseLosesNothing(stream: seq<byte>)
    ensures Wire(Parse(stream).msgs) + Parse(stream).rest == stream
    ensures forall i :: 0 <= i < |Parse(stream).msgs| ==> WellFormed(Parse(stream).msgs[i])
    decreases |stream|
  {
    hide FirstMessage, WellFormed, OnWire, Parse;
    var m := FirstMessage(stream);
    if m.None? {
      ParseNone(stream);
      assert Wire([]) + stream == stream;
    } else {
      var tail := FirstIsPrefix(stream);
      ParseLosesNothing(tail);
      ParseOne(m.value, tail);
      WireOfCons(m.value, Parse(tail).msgs);
      assert stream == OnWire(m.value) + (Wire(Parse(tail).msgs) + Parse(tail).rest);
    }
  }

  lemma ParseNone(stream: seq<byte>)
    requires FirstMessage(stream).None?
    ensures Parse(stream) == Parsed([], stream)
  {
  }

  lemma WireOfCons(m: Message, msgs: seq<Message>)
    ensures Wire([m] + msgs) == OnWire(m) + Wire(msgs)
  {
    assert ([m] + msgs)[1..] == msgs;
  }

  lemma FirstIsPrefix(stream: seq<byte>) returns (tail: seq<byte>)
    requires FirstMessage(stream).Some?
    ensures var m := FirstMessage(stream).value;
            && tail == stream[HEADER_LENGTH + |m.body|..]
            && stream == OnWire(m) + tail
            && |tail| < |stream|
  {
    tail := stream[HEADER_LENGTH + |FirstMessage(stream).value.body|..];
  }

  /** The messages made of some texts. */
  function Sent(texts: seq<seq<byte>>): (msgs: seq<Message>)
    ensures |msgs| == |texts| && forall i :: 0 <= i < |texts| ==> msgs[i] == Encoded(texts[i])
  {
    seq(|texts|, i requires 0 <= i < |texts| => Encoded(texts[i]))
  }

  /** A client reading what a server passes on sees what was sent, each text cut to what fits. */
  lemma RelayedBodiesArrive(texts: seq<seq<byte>>)
    ensures Parse(Wire(Parse(Wire(Sent(texts))).msgs)) == Parsed(Sent(texts), [])
    ensures forall i :: 0 <= i < |texts| ==> Sent(texts)[i].body == Clamped(texts[i])
  {
    hide WellFormed, Wire, Parse;
    var sent := Sent(texts);
    forall i | 0 <= i < |sent| ensures WellFormed(sent[i]) {
      EncodedIsWellFormed(texts[i]);
    }
    ParseRecovers(sent, []);
    ParseNone([]);
    assert Wire(sent) + [] == Wire(sent) && sent + [] == sent;
  }

  /** The two read handlers, with the message being read in place. */
  class Reader {
    const data: array<byte>
    var bodyLength: nat

    ghost predicate Valid()
      reads this
    {
      data.Length == HEADER_LENGTH + MAX_BODY_LENGTH && bodyLength <= MAX_BODY_LENGTH
    }

    constructor ()
      ensures Valid() && fresh(data)
    {
      data := new byte[HEADER_LENGTH + MAX_BODY_LENGTH];
      bodyLength := 0;
    }

    /** What a completed read leaves: so many stream bytes at an offset of the message. */
    method Fill(at: nat, bytes: seq<byte>)
      requires at + |bytes| <= data.Length
      modifies data
      ensures data[..] == old(data[..at]) + bytes + old(data[at + |bytes|..])
    {
      forall i | 0 <= i < |bytes| {
        data[at + i] := bytes[i];
      }
    }

    /** The length read from the header; a bad one counts as an empty body and ends the reading. */
    method DecodeBodyLength() returns (ok: bool)
      requires Valid()
      modifies `bodyLength
      ensures Valid() && ok == DecodeHeader(data[..HEADER_LENGTH]).Some?
      ensures bodyLength == if ok then DecodeHeader(data[..HEADER_LENGTH]).value else 0
    {
      var v := Atoi(CString(data[..HEADER_LENGTH]));
      if v < 0 || v > MAX_BODY_LENGTH {
        bodyLength := 0;
        return false;
      }
      bodyLength := v;
      return true;
    }

    /** Header, body, header, body, until a header is bad or the stream ends inside a message. */
    method ReadStream(stream: seq<byte>) returns (msgs: seq<Message>, ghost rest: seq<byte>)
      requires Valid()
      modifies this, data
      ensures Parsed(msgs, rest) == Parse(stream)
    {
      hide DecodeHeader, Parse;
      var at := 0;
      msgs, rest := [], stream;
      assert stream[0..] == stream;
      while at + HEADER_LENGTH <= |stream|
        invariant Valid() && at <= |stream| && rest == stream[at..]
        invariant Parse(stream) == Parsed(msgs + Parse(rest).msgs, Parse(rest).rest)
        decreases |stream| - at
      {
        Fill(0, stream[at..at + HEADER_LENGTH]);
        assert rest[..HEADER_LENGTH] == stream[at..at + HEADER_LENGTH] == data[..HEADER_LENGTH];
        var ok := DecodeBodyLength();
        if !ok || at + HEADER_LENGTH + bodyLength > |stream| {
          ParseNone(rest);
          return;
        }
        Fill(HEADER_LENGTH, stream[at + HEADER_LENGTH..at + HEADER_LENGTH + bodyLength]);
        assert data[..HEADER_LENGTH] == rest[..HEADER_LENGTH];
        var m := Message(data[..HEADER_LENGTH], data[HEADER_LENGTH..HEADER_LENGTH + bodyLength]);
        at := at + HEADER_LENGTH + bodyLength;
        assert rest == OnWire(m) + stream[at..];
        ParseOne(m, stream[at..]);
        msgs, rest := msgs + [m], stream[at..];
      }
      ParseNone(rest);
    }
  }
}

/** The chat room: the history it keeps, and the queue of writes of each session. */
module ChatRoom {
  import opened ChatMessage

  const MAX_RECENT: nat := 100

  /** The messages a room still holds of a history, or hands to a session that joins. */
  function Recent(history: seq<Message>): seq<Message> {
    if |history| > MAX_RECENT then history[|history| - MAX_RECENT..] else history
  }

  /** What a session that joined when the history was this long has to have been handed by now. */
  function Due(history: seq<Message>, joinedAt: nat): seq<Message>
    requires joinedAt <= |history|
  {
    if joinedAt > MAX_RECENT then history[joinedAt - MAX_RECENT..] else history
  }

  lemma DueAtJoin(history: seq<Message>)
    ensures Due(history, |history|) == Recent(history)
  {
  }

  lemma DueGrows(history: seq<Message>, m: Message, joinedAt: nat)
    requires joinedAt <= |history|
    ensures Due(history + [m], joinedAt) == Due(history, joinedAt) + [m]
  {
  }

  lemma RecentMoves(history: seq<Message>, m: Message)
    ensures var kept := Recent(history) + [m];
            Recent(history + [m]) == if |kept| > MAX_RECENT then kept[1..] else kept
  {
  }

  /** A connection's pipeline of writes: one at a time, the front of the queue. */
  class Session {
    var writeMsgs: seq<Message>
    ghost var outstanding: Option<Message>
    ghost var handed: seq<Message>
    ghost var completed: seq<Message>
    ghost var failed: bool
    ghost var joinedAt: nat

    /** What was handed over is what was written and what is queued; the front is being written unless a write failed. */
    ghost predicate Valid()
      reads this
    {
      && handed == completed + writeMsgs
      && outstanding == (if writeMsgs == [] || failed then None else Some(writeMsgs[0]))
      && (failed ==> writeMsgs != [])
    }

    constructor ()
      ensures Valid() && handed == [] && !failed
    {
      writeMsgs, outstanding, handed, completed, failed, joinedAt := [], None, [], [], false, 0;
    }

    method Deliver(msg: Message)
      requires Valid()
      modifies `writeMsgs, `outstanding, `handed
      ensures Valid() && handed == old(handed) + [msg] && writeMsgs == old(writeMsgs) + [msg]
    {
      var writeInProgress := writeMsgs != [];
      writeMsgs := writeMsgs + [msg];
      handed := handed + [msg];
      if !writeInProgress {
        outstanding := Some(writeMsgs[0]);
      }
    }

    /** The outstanding write finished: the next one starts, unless it failed. */
    method HandleWrite(error: bool, room: Room)
      requires Valid() && outstanding.Some? && room.Valid()
      modifies `writeMsgs, `outstanding, `completed, `failed, room`participants
      ensures Valid() && room.Valid() && failed == error
      ensures completed == if error then old(completed) else old(completed) + [old(outstanding.value)]
      ensures room.participants == if error then old(room.participants) - {this} else old(room.participants)
    {
      hide Due, Recent;
      if !error {
        WriteNext();
      } else {
        outstanding, failed := None, true;
        room.Leave(this);
      }
    }

    method WriteNext()
      requires Valid() && outstanding.Some?
      modifies `writeMsgs, `outstanding, `completed
      ensures Valid() && completed == old(completed) + [old(outstanding.value)]
    {
      completed := completed + [writeMsgs[0]];
      writeMsgs := writeMsgs[1..];
      outstanding := if writeMsgs != [] then Some(writeMsgs[0]) else None;
    }
  }

  class Room {
    var participants: set<Session>
    var recentMsgs: seq<Message>
    ghost var history: seq<Message>

    ghost predicate Valid()
      reads this, participants
    {
      && recentMsgs == Recent(history)
      && forall p :: p in participants ==> p.Valid() && p.joinedAt <= |history| && p.handed == Due(history, p.joinedAt)
    }

    constructor ()
      ensures Valid() && participants == {} && history == []
    {
      participants, recentMsgs, history := {}, [], [];
    }

    /** A new session is handed what the room still holds. */
    method Join(p: Session)
      requires Valid() && p !in participants && p.Valid() && p.handed == []
      modifies `participants, p
      ensures Valid() && participants == old(participants) + {p} && p.joinedAt == |history|
      ensures p.handed == Recent(history)
    {
      participants := participants + {p};
      p.joinedAt := |history|;
      DueAtJoin(history);
      var i := 0;
      while i < |recentMsgs|
        invariant i <= |recentMsgs| && p.Valid() && p.handed == recentMsgs[..i] && p.joinedAt == |history|
        modifies p`writeMsgs, p`outstanding, p`handed
      {
        p.Deliver(recentMsgs[i]);
        i := i + 1;
      }
    }

    method Leave(p: Session)
      requires Valid()
      modifies `participants
      ensures Valid() && participants == old(participants) - {p}
    {
      participants := participants - {p};
    }

    /** A message goes into the history, the oldest one out, and to every session. */
    method Deliver(msg: Message)
      requires Valid()
      modifies `recentMsgs, `history, participants
      ensures Valid() && history == old(history) + [msg] && participants == old(participants)
      ensures forall p :: p in participants ==> p.joinedAt == old(p.joinedAt)
    {
      hide Recent, Due;
      ghost var before := history;
      Remember(msg);
      HandOut(msg, before);
    }

    /** The newest message kept, the oldest dropped once there are too many. */
    method Remember(msg: Message)
      requires recentMsgs == Recent(history)
      modifies `recentMsgs, `history
      ensures history == old(history) + [msg] && recentMsgs == Recent(history)
    {
      RecentMoves(history, msg);
      history := history + [msg];
      recentMsgs := recentMsgs + [msg];
      while |recentMsgs| > MAX_RECENT
        invariant recentMsgs == Recent(history) || (|recentMsgs| == MAX_RECENT + 1 && recentMsgs[1..] == Recent(history))
        modifies `recentMsgs
      {
        recentMsgs := recentMsgs[1..];
      }
    }

    /** A message handed to every participant. */
    method HandOut(msg: Message, ghost before: seq<Message>)
      requires history == before + [msg]
      requires forall p :: p in participants ==> p.Valid() && p.joinedAt <= |before| && p.handed == Due(before, p.joinedAt)
      modifies participants`writeMsgs, participants`outstanding, participants`handed
      ensures forall p :: p in participants ==> p.Valid() && p.handed == Due(history, p.joinedAt)
    {
      hide Due;
      var left := participants;
      while left != {}
        invariant left <= participants
        invariant forall p :: p in participants ==> p.Valid()
        invariant forall p :: p in left ==> p.handed == Due(before, p.joinedAt)
        invariant forall p :: p in participants - left ==> p.handed == Due(history, p.joinedAt)
        modifies participants`writeMsgs, participants`outstanding, participants`handed
      {
        var p :| p in left;
        DueGrows(before, msg, p.joinedAt);
        p.Deliver(msg);
        left := left - {p};
      }
    }
  }
}
