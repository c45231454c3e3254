/** The multipart messages between RTCVADZmqClient and the speech-to-text server: the
    parts the C++ thread sends, and the loop that reads them back in Python. */
module Framing {
  import opened Std
  import opened ChunkPacker

  /** One frame on the wire; `more` is its SNDMORE / RCVMORE flag. */
  datatype Part = Part(body: seq<Byte>, more: bool)

  /** A labelled buffer as it is queued: the peer's id, the "enum" string and the data. */
  datatype Voice = Voice(id: string, kind: string, data: seq<Byte>)

  /** What the server hands to its pool. */
  datatype Event = Event(id: string, kind: string, pcm: seq<Byte>)

  function KindName(k: Label): string {
    match k
    case Start => "start"
    case Speeching => "speeching"
    case End => "end"
  }

  function VoiceOf(id: string, c: Chunk): Voice {
    Voice(id, KindName(c.kind), c.payload)
  }

  // ---- text: ASCII, which UTF-8 leaves as it is ----

  predicate Ascii(s: string) {
    forall i | 0 <= i < |s| :: s[i] as int < 128
  }

  function Encode(s: string): seq<Byte>
    requires Ascii(s)
  {
    seq(|s|, i requires 0 <= i < |s| => s[i] as int)
  }

  function Decode(b: seq<Byte>): Option<string> {
    if forall i | 0 <= i < |b| :: b[i] < 128 then Some(seq(|b|, i requires 0 <= i < |b| => b[i] as char))
    else None
  }

  lemma DecodeEncode(s: string)
    requires Ascii(s)
    ensures Decode(Encode(s)) == Some(s)
  {
    assert Decode(Encode(s)).value == s;
  }

  // ---- the sender ----

  predicate Sendable(v: Voice) {
    Ascii(v.id) && Ascii(v.kind)
  }

  /** An "end" is sent without its data. */
  function Parts(v: Voice): seq<Part>
    requires Sendable(v)
  {
    if v.kind == "end" then [Part(Encode(v.id), true), Part(Encode(v.kind), false)]
    else [Part(Encode(v.id), true), Part(Encode(v.kind), true), Part(v.data, false)]
  }

  /** A ROUTER socket puts the sender's identity before each message. */
  function Routed(identity: seq<Byte>, vs: seq<Voice>): seq<Part>
    requires forall v | v in vs :: Sendable(v)
  {
    if vs == [] then [] else [Part(identity, true)] + Parts(vs[0]) + Routed(identity, vs[1..])
  }

  // ---- the receiver ----

  /** The index of the part that ends the first message, or the number of parts. */
  function MessageEnd(wire: seq<Part>): (e: nat)
    ensures e <= |wire|
    ensures forall i | 0 <= i < e :: wire[i].more
    ensures e < |wire| ==> !wire[e].more
  {
    if wire == [] || !wire[0].more then 0 else 1 + MessageEnd(wire[1..])
  }

  function Bodies(wire: seq<Part>): seq<seq<Byte>> {
    seq(|wire|, i requires 0 <= i < |wire| => wire[i].body)
  }

  /** The frames of one message as an event; None where the server's indexing or its
      text decoding raises. */
  function ToEvent(frames: seq<seq<Byte>>): Option<Event> {
    if |frames| < 3 then None
    else
      match (Decode(frames[1]), Decode(frames[2]))
      case (Some(id), Some(kind)) =>
        if kind == "end" then Some(Event(id, kind, []))
        else if |frames| < 4 then None
        else Some(Event(id, kind, frames[3]))
      case _ => None
  }

  datatype Intake = Intake(events: seq<Event>, alive: bool)

  /** Everything the receive loop submits while it reads these parts; it is not alive
      any more once a message has raised. */
  function Receive(wire: seq<Part>): Intake
    decreases |wire|
  {
    var e := MessageEnd(wire);
    if e == |wire| then Intake([], true)
    else
      match ToEvent(Bodies(wire[..e + 1]))
      case None => Intake([], false)
      case Some(event) =>
        var rest := Receive(wire[e + 1..]);
        Intake([event] + rest.events, rest.alive)
  }

  function EventOf(v: Voice): Event {
    Event(v.id, v.kind, v.data)
  }

  function EventsOf(vs: seq<Voice>): seq<Event> {
    seq(|vs|, i requires 0 <= i < |vs| => EventOf(vs[i]))
  }

  predicate Text(b: seq<Byte>) {
    forall i | 0 <= i < |b| :: b[i] < 128
  }

  /** The loop raises on a message without a client or a kind, on text it cannot decode, and
      on a missing payload of anything but an "end"; on nothing else. */
  lemma RaisesIff(frames: seq<seq<Byte>>)
    ensures ToEvent(frames).None? <==>
            || |frames| < 3 || !Text(frames[1]) || !Text(frames[2])
            || (|frames| == 3 && frames[2] != Encode("end"))
  {
    if |frames| >= 3 && Text(frames[2]) {
      DecodeEncode("end");
      assert frames[2] == Encode(Decode(frames[2]).value);
    }
  }

  /** What has been submitted does not depend on what comes later, and once a message has
      raised nothing more is submitted. */
  lemma {:induction false} ReceivedStays(wire: seq<Part>, more: seq<Part>)
    ensures Receive(wire).events <= Receive(wire + more).events
    ensures !Receive(wire).alive ==> Receive(wire + more) == Receive(wire)
    decreases |wire|
  {
    var e := MessageEnd(wire);
    if e < |wire| {
      var first, rest := wire[..e + 1], wire[e + 1..];
      assert wire == first + rest && wire + more == first + (rest + more);
      ReceiveFirst(first, rest);
      ReceiveFirst(first, rest + more);
      ReceivedStays(rest, more);
    }
  }

  lemma ReceiveFirst(first: seq<Part>, rest: seq<Part>)
    requires first != [] && !Last(first).more && forall i | 0 <= i < |first| - 1 :: first[i].more
    ensures Receive(first + rest) == match ToEvent(Bodies(first))
              case None => Intake([], false)
              case Some(event) => Intake([event] + Receive(rest).events, Receive(rest).alive)
  {
    FirstMessage(first, rest);
    assert (first + rest)[..|first|] == first && (first + rest)[|first|..] == rest;
  }

  /** A message comes back as it was sent if and only if an "end" carries no data: it has
      two parts, and its data is not sent. */
  lemma FramingExact(identity: seq<Byte>, v: Voice)
    requires Sendable(v)
    ensures ToEvent(Bodies([Part(identity, true)] + Parts(v))) == Some(EventOf(v)) <==> (v.kind == "end" ==> v.data == [])
    ensures |Parts(v)| == (if v.kind == "end" then 2 else 3)
    ensures v.kind != "end" ==> Last(Parts(v)).body == v.data
  {
    DecodeEncode(v.id);
    DecodeEncode(v.kind);
    var parts := [Part(identity, true)] + Parts(v);
    assert Bodies(parts)[1] == Encode(v.id) && Bodies(parts)[2] == Encode(v.kind);
  }

  /** However many messages follow one another on the wire, the loop finds their
      boundaries and submits exactly what was sent, in order. */
  lemma {:induction false} ReceiveRoundTrip(identity: seq<Byte>, vs: seq<Voice>)
    requires forall v | v in vs :: Sendable(v) && (v.kind == "end" ==> v.data == [])
    ensures Receive(Routed(identity, vs)) == Intake(EventsOf(vs), true)
  {
    if vs != [] {
      ReceiveRoundTrip(identity, vs[1..]);
      ReceiveOne(identity, vs[0], Routed(identity, vs[1..]));
      EventsOfNext(vs);
    }
  }

  lemma EventsOfNext(vs: seq<Voice>)
    requires vs != []
    ensures EventsOf(vs) == [EventOf(vs[0])] + EventsOf(vs[1..])
  {
  }

  lemma ReceiveOne(identity: seq<Byte>, v: Voice, rest: seq<Part>)
    requires Sendable(v) && (v.kind == "end" ==> v.data == [])
    ensures Receive([Part(identity, true)] + Parts(v) + rest) == Intake([EventOf(v)] + Receive(rest).events, Receive(rest).alive)
  {
    ReceiveFirst([Part(identity, true)] + Parts(v), rest);
    FramingExact(identity, v);
  }

  lemma {:induction false} FirstMessage(first: seq<Part>, rest: seq<Part>)
    requires first != [] && !Last(first).more && forall i | 0 <= i < |first| - 1 :: first[i].more
    ensures MessageEnd(first + rest) == |first| - 1
  {
    if |first| > 1 {
      assert (first + rest)[1..] == first[1..] + rest;
      FirstMessage(first[1..], rest);
    }
  }

  /** The inner loop: parts are appended until one comes without RCVMORE.  `done` is
      false when the loop is still waiting. */
  method ReceiveMessage(wire: seq<Part>) returns (frames: seq<seq<Byte>>, rest: seq<Part>, done: bool)
    ensures done <==> MessageEnd(wire) < |wire|
    ensures done ==> frames == Bodies(wire[..MessageEnd(wire) + 1]) && rest == wire[MessageEnd(wire) + 1..]
  {
    frames, rest, done := [], wire, false;
    ghost var i := 0;
    while rest != []
      invariant 0 <= i <= |wire| && rest == wire[i..]
      invariant forall j | 0 <= j < i :: wire[j].more
      invariant frames == Bodies(wire[..i])
      decreases |rest|
    {
      var part := rest[0];
      frames := frames + [part.body];
      rest := rest[1..];
      if !part.more {
        done := true;
        return;
      }
      i := i + 1;
    }
  }

  /** The outer loop, up to the point where it would wait or has raised. */
  method ReceiveLoop(wire: seq<Part>) returns (events: seq<Event>, alive: bool)
    ensures Intake(events, alive) == Receive(wire)
  {
    events, alive := [], true;
    var rest := wire;
    while true
      invariant alive
      invariant Receive(wire) == Intake(events + Receive(rest).events, Receive(rest).alive)
      decreases |rest|
    {
      var frames, next, done := ReceiveMessage(rest);
      if !done {
        return;
      }
      match ToEvent(frames) {
        case None =>
          alive := false;
          return;
        case Some(event) =>
          Regroup(events, [event], Receive(next).events);
          events := events + [event];
          rest := next;
      }
    }
  }
}
