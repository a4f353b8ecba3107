/** The text of stream control frames (sendControl and receiveControl in
    nativewebrtc/stream.go). */
module ControlText {
  import opened Bytes
  import opened Decimal
  import opened FlowStream

  const EOF_TEXT: seq<byte> := [101, 111, 102]
  const ABORT_TEXT: seq<byte> := [97, 98, 111, 114, 116]
  const FLOW_TEXT: seq<byte> := [102, 108, 111, 119, 58, 49]
  const RESUME_TEXT: seq<byte> := [114, 101, 115, 117, 109, 101]
  const ACK_PREFIX: seq<byte> := [97, 99, 107, 58]
  const PING_TEXT: seq<byte> := [112, 105, 110, 103]
  const PONG_TEXT: seq<byte> := [112, 111, 110, 103]

  /** A control the stream itself sends. */
  predicate Sent(c: Control)
  {
    !c.Unknown? && (c.Ack? ==> 0 <= c.count < INT_LIMIT)
  }

  function Render(c: Control): (r: seq<byte>)
    requires Sent(c)
  {
    match c
    case Eof => EOF_TEXT
    case Abort => ABORT_TEXT
    case FlowOn => FLOW_TEXT
    case Resume => RESUME_TEXT
    case Ack(n) => ACK_PREFIX + Digits(n)
    case Ping => PING_TEXT
    case Pong => PONG_TEXT
  }

  /** The dispatch of receiveControl; an acknowledgement that does not parse is
      ignored like any unknown text. */
  function Parse(text: seq<byte>): (r: Control)
  {
    if text == EOF_TEXT then Eof
    else if text == ABORT_TEXT then Abort
    else if text == FLOW_TEXT then FlowOn
    else if text == RESUME_TEXT then Resume
    else if ACK_PREFIX <= text then
      var n := Atoi(text[4..]);
      if n.Some? then Ack(n.value) else Unknown
    else if text == PING_TEXT then Ping
    else if text == PONG_TEXT then Pong
    else Unknown
  }

  /** Every control frame is understood by the peer as it was meant. */
  lemma {:induction false} ParseInvertsRender(c: Control)
    requires Sent(c)
    ensures Parse(Render(c)) == c
  {
    assert ABORT_TEXT[1] == 98 && PING_TEXT[1] == 105 && PONG_TEXT[1] == 111 && ACK_PREFIX[1] == 99;
    assert FLOW_TEXT[0] == 102 && RESUME_TEXT[0] == 114 && PING_TEXT[0] == 112 && PONG_TEXT[0] == 112;
    if c.Ack? {
      var text := Render(c);
      assert text[0] == 97 && text[1] == 99;
      assert text[4..] == Digits(c.count);
      AtoiInvertsItoa(c.count);
    }
  }

  /** The texts on the wire, and no others, have these meanings. */
  lemma {:induction false} ControlWords(text: seq<byte>)
    ensures Parse(text) == Eof <==> text == Ascii("eof")
    ensures Parse(text) == Abort <==> text == Ascii("abort")
    ensures Parse(text) == FlowOn <==> text == Ascii("flow:1")
    ensures Parse(text) == Resume <==> text == Ascii("resume")
    ensures Parse(text) == Ping <==> text == Ascii("ping")
    ensures Parse(text) == Pong <==> text == Ascii("pong")
    ensures forall n: int :: Parse(text) == Ack(n) <==> Ascii("ack:") <= text && Atoi(text[4..]) == Some(n)
  {
    assert Ascii("eof") == EOF_TEXT && Ascii("abort") == ABORT_TEXT && Ascii("flow:1") == FLOW_TEXT;
    assert Ascii("resume") == RESUME_TEXT && Ascii("ping") == PING_TEXT && Ascii("pong") == PONG_TEXT;
    assert Ascii("ack:") == ACK_PREFIX;
    assert ABORT_TEXT[1] == 98 && PING_TEXT[1] == 105 && PONG_TEXT[1] == 111 && ACK_PREFIX[1] == 99;
    assert FLOW_TEXT[0] == 102 && RESUME_TEXT[0] == 114 && EOF_TEXT[0] == 101 && ABORT_TEXT[0] == 97;
    if ACK_PREFIX <= text { assert text[0] == ACK_PREFIX[0] && text[1] == ACK_PREFIX[1]; }
  }
}
