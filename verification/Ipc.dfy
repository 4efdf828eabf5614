/**
 One direction of an IPC connection: frames of a little-endian length and a payload, a sending
 half that queues until the peer connects, and the loop that reads frames on the other side.
 */
module Ipc {

  newtype byte = x: int | 0 <= x < 256

  type Payload = seq<byte>

  const MAX_FRAME := 256 * 1024 * 1024

  // ----- frames

  function LeBytes(n: nat): seq<byte>
    requires n < 0x1_0000_0000
  {
    [(n % 256) as byte, (n / 256 % 256) as byte, (n / 65536 % 256) as byte, (n / 16777216) as byte]
  }

  function FromLeBytes(b: seq<byte>): nat
    requires |b| == 4
  {
    b[0] as int + 256 * (b[1] as int) + 65536 * (b[2] as int) + 16777216 * (b[3] as int)
  }

  lemma {:induction false} LengthRoundTrip(n: nat)
    requires n < 0x1_0000_0000
    ensures FromLeBytes(LeBytes(n)) == n
  {
    assert n == n % 256 + 256 * (n / 256);
    assert n / 256 == n / 256 % 256 + 256 * (n / 65536);
    assert n / 65536 == n / 65536 % 256 + 256 * (n / 16777216);
  }

  function Frame(p: Payload): seq<byte>
    requires |p| <= MAX_FRAME
  {
    LeBytes(|p|) + p
  }

  ghost predicate Sendable(ps: seq<Payload>) {
    forall i :: 0 <= i < |ps| ==> |ps[i]| <= MAX_FRAME
  }

  /** The bytes of frames written one after the other. */
  ghost function Stream(ps: seq<Payload>): seq<byte>
    requires Sendable(ps)
  {
    if ps == [] then [] else Frame(ps[0]) + Stream(ps[1..])
  }

  /** The number of these bytes. */
  ghost function StreamSize(ps: seq<Payload>): nat {
    if ps == [] then 0 else 4 + |ps[0]| + StreamSize(ps[1..])
  }

  lemma {:induction false} StreamSizeIs(ps: seq<Payload>)
    requires Sendable(ps)
    ensures StreamSize(ps) == |Stream(ps)|
  {
    if ps != [] { StreamSizeIs(ps[1..]); }
  }

  /** What a reader makes of a stream: the payloads of the whole frames at its start. Reading
      ends where the stream does or at a length over the limit. */
  function Decoded(s: seq<byte>): seq<Payload> {
    if |s| < 4 then []
    else
      var n := FromLeBytes(s[..4]);
      if n > MAX_FRAME || |s| - 4 < n then [] else [s[4..4 + n]] + Decoded(s[4 + n..])
  }

  /** A frame cut short, or nothing. */
  ghost predicate CutShort(tail: seq<byte>) {
    tail == [] || exists p: Payload :: |p| <= MAX_FRAME && |tail| < |Frame(p)| && tail <= Frame(p)
  }

  lemma {:induction false} DecodedOneMore(p: Payload, rest: seq<byte>)
    requires |p| <= MAX_FRAME
    ensures Decoded(Frame(p) + rest) == [p] + Decoded(rest)
  {
    var s := Frame(p) + rest;
    LengthRoundTrip(|p|);
    assert s[..4] == LeBytes(|p|);
    assert s[4..4 + |p|] == p;
    assert s[4 + |p|..] == rest;
  }

  lemma {:induction false} DecodedNothing(tail: seq<byte>)
    requires CutShort(tail)
    ensures Decoded(tail) == []
  {
    if |tail| >= 4 {
      var p: Payload :| |p| <= MAX_FRAME && |tail| < |Frame(p)| && tail <= Frame(p);
      assert tail[..4] == Frame(p)[..4] == LeBytes(|p|);
      LengthRoundTrip(|p|);
    }
  }

  /** Reading back any frames, whatever has been cut short after them, returns exactly them. */
  lemma {:induction false} DecodedStream(ps: seq<Payload>, tail: seq<byte>)
    requires Sendable(ps) && CutShort(tail)
    ensures Decoded(Stream(ps) + tail) == ps
    decreases |ps|
  {
    if ps == [] {
      assert Stream(ps) + tail == tail;
      DecodedNothing(tail);
    } else {
      DecodedOneMore(ps[0], Stream(ps[1..]) + tail);
      DecodedStream(ps[1..], tail);
      assert Stream(ps) + tail == Frame(ps[0]) + (Stream(ps[1..]) + tail);
    }
  }

  /** What has been read when only part of the stream has arrived. */
  lemma {:induction false} DecodedSoFar(s: seq<byte>, k: nat)
    requires k <= |s|
    ensures Decoded(s[..k]) <= Decoded(s)
    decreases |s|
  {
    var c := s[..k];
    if |c| >= 4 {
      assert c[..4] == s[..4];
      var n := FromLeBytes(s[..4]);
      if n <= MAX_FRAME && |c| - 4 >= n {
        assert c[4..4 + n] == s[4..4 + n];
        assert c[4 + n..] == s[4 + n..][..k - 4 - n];
        DecodedSoFar(s[4 + n..], k - 4 - n);
      }
    }
  }

  lemma {:induction false} StreamSnoc(ps: seq<Payload>, p: Payload)
    requires Sendable(ps) && |p| <= MAX_FRAME
    ensures Sendable(ps + [p]) && Stream(ps + [p]) == Stream(ps) + Frame(p)
    decreases |ps|
  {
    if ps == [] {
      assert [p][1..] == [];
      assert ps + [p] == [p];
    } else {
      StreamSnoc(ps[1..], p);
      assert (ps + [p])[1..] == ps[1..] + [p];
      assert Frame(ps[0]) + (Stream(ps[1..]) + Frame(p)) == Stream(ps) + Frame(p);
    }
  }

  // ----- the reading side

  datatype Event = Message(p: Payload) | Disconnected

  ghost function Messages(ps: seq<Payload>): seq<Event> {
    if ps == [] then [] else Messages(ps[..|ps| - 1]) + [Message(ps[|ps| - 1])]
  }

  /** The payloads up to the first one that is no message. */
  ghost function Understood(ps: seq<Payload>, decodes: Payload -> bool): seq<Payload> {
    if ps == [] || !decodes(ps[0]) then [] else [ps[0]] + Understood(ps[1..], decodes)
  }

  /** All of them just when every one is a message. */
  lemma {:induction false} UnderstoodIs(ps: seq<Payload>, decodes: Payload -> bool)
    ensures Understood(ps, decodes) <= ps
    ensures Understood(ps, decodes) == ps <==> forall i :: 0 <= i < |ps| ==> decodes(ps[i])
    decreases |ps|
  {
    if ps != [] && decodes(ps[0]) {
      UnderstoodIs(ps[1..], decodes);
      assert ps == [ps[0]] + ps[1..];
    }
  }

  /** `read_frame` at byte `at`: the payload and where the next frame starts. */
  method ReadFrame(s: seq<byte>, at: nat) returns (ok: bool, p: Payload, next: nat)
    requires at <= |s|
    ensures ok <==> Decoded(s[at..]) != []
    ensures ok ==> at < next <= |s| && Decoded(s[at..]) == [p] + Decoded(s[next..])
  {
    ok, p, next := false, [], at;
    if |s| - at < 4 { return; }
    var len := FromLeBytes(s[at..at + 4]);
    assert s[at..][..4] == s[at..at + 4];
    if len > MAX_FRAME { return; }
    if |s| - at - 4 < len { return; }
    ok, p, next := true, s[at + 4..at + 4 + len], at + 4 + len;
    assert s[at..][4..4 + len] == p && s[at..][4 + len..] == s[next..];
  }

  lemma {:induction false} OneMessage(before: seq<Event>, got: seq<Payload>, p: Payload, rest: seq<Payload>,
      decodes: Payload -> bool)
    requires decodes(p)
    ensures got + Understood([p] + rest, decodes) == (got + [p]) + Understood(rest, decodes)
    ensures before + Messages(got + [p]) == (before + Messages(got)) + [Message(p)]
  {
    assert ([p] + rest)[1..] == rest;
    assert got + ([p] + Understood(rest, decodes)) == (got + [p]) + Understood(rest, decodes);
    assert (got + [p])[..|got + [p]| - 1] == got;
    assert before + (Messages(got) + [Message(p)]) == (before + Messages(got)) + [Message(p)];
  }

  /** Deliver the message of every whole frame, in order, until one cannot be read or is no message. */
  method ReadLoop(s: seq<byte>, decodes: Payload -> bool, before: seq<Event>) returns (events: seq<Event>)
    ensures events == before + Messages(Understood(Decoded(s), decodes))
  {
    events := before;
    var at := 0;
    ghost var got: seq<Payload> := [];
    ghost var rest := Understood(Decoded(s), decodes);
    assert s[0..] == s;
    while true
      invariant at <= |s|
      invariant rest == Understood(Decoded(s[at..]), decodes)
      invariant Understood(Decoded(s), decodes) == got + rest
      invariant events == before + Messages(got)
      decreases |s| - at
    {
      var ok, p, next := ReadFrame(s, at);
      if !ok || !decodes(p) {
        assert rest == [];
        break;
      }
      OneMessage(before, got, p, Decoded(s[next..]), decodes);
      got, rest := got + [p], Understood(Decoded(s[next..]), decodes);
      events := events + [Message(p)];
      at := next;
    }
    assert got == Understood(Decoded(s), decodes);
  }

  // ----- the sending side

  datatype Outcome = Sent | TooLarge | BrokenPipe

  datatype Phase = Pending | Open | Closed

  /** A call of `send`, and how many bytes the transport would take of it. */
  datatype Attempt = Attempt(bytes: Payload, took: nat)

  /** The payloads whose sender was told that they were sent. */
  ghost function Acked(batch: seq<Attempt>, rs: seq<Outcome>): seq<Payload>
    requires |batch| == |rs|
  {
    if batch == [] then [] else (if rs[0] == Sent then [batch[0].bytes] else []) + Acked(batch[1..], rs[1..])
  }

  lemma {:induction false} AckedSnoc(batch: seq<Attempt>, rs: seq<Outcome>, a: Attempt, r: Outcome)
    requires |batch| == |rs|
    ensures Acked(batch + [a], rs + [r]) == Acked(batch, rs) + if r == Sent then [a.bytes] else []
    decreases |batch|
  {
    if batch == [] {
      assert [a][1..] == [] && [r][1..] == [];
    } else {
      AckedSnoc(batch[1..], rs[1..], a, r);
      assert (batch + [a])[1..] == batch[1..] + [a] && (rs + [r])[1..] == rs[1..] + [r];
    }
  }

  /** The sending half, shared under one lock; each method is one lock region. `took` says how
      many of the bytes offered the transport takes. A write error is permanent. */
  class Sender {
    var phase: Phase
    var queue: seq<Payload>
    var written: seq<byte>        // what has gone to the transport
    var broken: bool              // a write has failed
    ghost var accepted: seq<Payload>  // what `Send` reported as sent

    /** What has gone out is the accepted messages in order, all of them unless a write has
        failed, and then some of them and a frame cut short. */
    ghost predicate Valid()
      reads this
    {
      && Sendable(accepted)
      && Sendable(queue)
      && (phase == Pending && !broken ==> queue == accepted && written == [])
      && (phase == Open && !broken ==> written == Stream(accepted))
      && Cut(written, accepted)
    }

    /** Made by a background connection, or around one that is open already. */
    constructor (open: bool)
      ensures Valid() && accepted == [] && !broken && phase == if open then Open else Pending
    {
      phase := if open then Open else Pending;
      queue, written, broken, accepted := [], [], false, [];
      new;
      CutWhole([]);
    }

    /** `write_all` and `flush`. */
    method Write(bytes: seq<byte>, took: nat) returns (ok: bool)
      modifies this`written, this`broken
      ensures ok == (!old(broken) && took >= |bytes|)
      ensures broken == (old(broken) || !ok)
      ensures written == old(written) + if old(broken) then [] else if ok then bytes else bytes[..took]
    {
      if broken { return false; }
      ok := took >= |bytes|;
      if ok {
        written := written + bytes;
      } else {
        written := written + bytes[..took];
        broken := true;
      }
    }

    method Send(bytes: Payload, took: nat) returns (r: Outcome)
      requires Valid()
      modifies this
      ensures Valid() && phase == old(phase)
      ensures r == TooLarge <==> |bytes| > MAX_FRAME
      ensures r == Sent <==> (
        && |bytes| <= MAX_FRAME
        && (old(phase) == Pending || (old(phase) == Open && !old(broken) && took >= 4 + |bytes|)))
      ensures accepted == old(accepted) + if r == Sent then [bytes] else []
      ensures old(phase) == Closed || r == TooLarge ==>
        written == old(written) && queue == old(queue) && broken == old(broken)
      ensures old(phase) == Pending ==> written == old(written) && broken == old(broken)
      ensures old(phase) == Pending ==> queue == old(queue) + if r == Sent then [bytes] else []
    {
      if |bytes| > MAX_FRAME { return TooLarge; }
      match phase {
        case Pending =>
          queue := queue + [bytes];
          accepted := accepted + [bytes];
          CutMore(written, old(accepted), bytes);
          r := Sent;
        case Open =>
          StreamSnoc(accepted, bytes);
          var ok := Write(Frame(bytes), took);
          if ok {
            accepted := accepted + [bytes];
            CutWhole(accepted);
            r := Sent;
          } else {
            if old(broken) { assert written == old(written); } else { CutPart(accepted, bytes, took); }
            r := BrokenPipe;
          }
        case Closed =>
          r := BrokenPipe;
      }
    }

    /** Sends of other threads, one lock region each. */
    method SendAll(batch: seq<Attempt>) returns (rs: seq<Outcome>)
      requires Valid()
      modifies this
      ensures Valid() && phase == old(phase) && |rs| == |batch|
      ensures accepted == old(accepted) + Acked(batch, rs)
      ensures forall i :: 0 <= i < |rs| ==> (rs[i] == TooLarge <==> |batch[i].bytes| > MAX_FRAME)
      ensures phase == Pending ==> queue == old(queue) + Acked(batch, rs) && broken == old(broken)
      ensures phase != Open ==> written == old(written)
      ensures phase == Closed ==> Sent !in rs && accepted == old(accepted)
    {
      rs := [];
      for i := 0 to |batch|
        invariant Valid() && phase == old(phase) && |rs| == i
        invariant accepted == old(accepted) + Acked(batch[..i], rs)
        invariant forall j :: 0 <= j < i ==> (rs[j] == TooLarge <==> |batch[j].bytes| > MAX_FRAME)
        invariant phase == Pending ==> queue == old(queue) + Acked(batch[..i], rs) && broken == old(broken)
        invariant phase != Open ==> written == old(written)
        invariant phase == Closed ==> Sent !in rs && accepted == old(accepted)
      {
        var r := Send(batch[i].bytes, batch[i].took);
        AckedSnoc(batch[..i], rs, batch[i], r);
        assert batch[..i + 1] == batch[..i] + [batch[i]];
        rs := rs + [r];
      }
      assert batch[..|batch|] == batch;
    }

    /** The queue's frames, one write each, until a write fails. */
    method WriteQueue(frames: seq<Payload>, took: nat) returns (ok: bool)
      requires Sendable(frames) && written == [] && !broken
      modifies this`written, this`broken
      ensures ok <==> took >= |Stream(frames)|
      ensures broken == !ok
      ensures ok ==> written == Stream(frames)
      ensures Cut(written, frames)
    {
      var left: nat := took;
      for i := 0 to |frames|
        invariant !broken && written == Stream(frames[..i]) && left == took - |written|
      {
        assert frames[..i + 1] == frames[..i] + [frames[i]];
        StreamSnoc(frames[..i], frames[i]);
        var sent := Write(Frame(frames[i]), left);
        if !sent {
          CutPart(frames[..i], frames[i], left);
          CutOf(written, frames, i);
          StreamLength(frames, i + 1);
          return false;
        }
        left := left - |Frame(frames[i])|;
      }
      assert frames[..|frames|] == frames;
      CutWhole(frames);
      ok := true;
    }

    /** `open_sender`, called once with the new connection: write the queue out, then switch
        over. `took` is what the transport takes in all before it fails, if it fails. A failed
        write drops the rest of the queue. */
    method OpenSender(took: nat) returns (ok: bool)
      requires Valid() && (phase == Pending ==> !broken)
      modifies this
      ensures Valid() && accepted == old(accepted)
      ensures ok <==> old(phase) == Pending && took >= StreamSize(old(queue))
      ensures phase == if ok then Open else old(phase)
      ensures ok ==> !broken && written == Stream(accepted)
      ensures old(phase) != Pending ==> written == old(written) && broken == old(broken)
    {
      if phase != Pending { return false; }
      var frames := queue;
      StreamSizeIs(frames);
      queue := [];
      ok := WriteQueue(frames, took);
      if ok { phase := Open; }
    }

    /** Nothing is sent from here on. */
    method Close()
      requires Valid()
      modifies this`phase
      ensures Valid() && phase == Closed
    {
      phase := Closed;
    }

    /** Whatever has arrived so far, the messages read from it are the first of the accepted ones. */
    lemma {:induction false} ReceivedIsPrefix(k: nat)
      requires Valid() && k <= |written|
      ensures Decoded(written[..k]) <= accepted
      ensures phase == Open && !broken ==> Decoded(written) == accepted
    {
      DecodedSoFar(written, k);
      CutDecodes(written, accepted);
      if phase == Open && !broken {
        assert Stream(accepted) + [] == Stream(accepted);
        DecodedStream(accepted, []);
      }
    }
  }

  /** Some first messages of `ps`, whole, and a frame cut short. */
  ghost predicate Cut(s: seq<byte>, ps: seq<Payload>)
    requires Sendable(ps)
  {
    exists n: nat :: n <= |ps| && CutAt(s, ps, n)
  }

  ghost predicate CutAt(s: seq<byte>, ps: seq<Payload>, n: nat)
    requires Sendable(ps) && n <= |ps|
  {
    && Stream(ps[..n]) <= s
    && CutShort(s[|Stream(ps[..n])|..])
  }

  lemma {:induction false} CutDecodes(s: seq<byte>, ps: seq<Payload>)
    requires Sendable(ps) && Cut(s, ps)
    ensures Decoded(s) <= ps
  {
    var n: nat :| n <= |ps| && CutAt(s, ps, n);
    var front := Stream(ps[..n]);
    assert s == front + s[|front|..];
    DecodedStream(ps[..n], s[|front|..]);
  }

  lemma {:induction false} CutMore(s: seq<byte>, ps: seq<Payload>, p: Payload)
    requires Sendable(ps) && |p| <= MAX_FRAME && Cut(s, ps)
    ensures Sendable(ps + [p]) && Cut(s, ps + [p])
  {
    var n: nat :| n <= |ps| && CutAt(s, ps, n);
    assert (ps + [p])[..n] == ps[..n];
    assert CutAt(s, ps + [p], n);
  }

  lemma {:induction false} CutWhole(ps: seq<Payload>)
    requires Sendable(ps)
    ensures Cut(Stream(ps), ps)
  {
    assert ps[..|ps|] == ps;
    assert CutAt(Stream(ps), ps, |ps|);
  }

  lemma {:induction false} CutPart(ps: seq<Payload>, p: Payload, took: nat)
    requires Sendable(ps) && |p| <= MAX_FRAME && took < |Frame(p)|
    ensures Cut(Stream(ps) + Frame(p)[..took], ps)
  {
    assert ps[..|ps|] == ps;
    var s := Stream(ps) + Frame(p)[..took];
    assert s[|Stream(ps)|..] == Frame(p)[..took];
    assert CutAt(s, ps, |ps|);
  }

  lemma {:induction false} CutOf(s: seq<byte>, ps: seq<Payload>, i: nat)
    requires Sendable(ps) && i <= |ps| && Cut(s, ps[..i])
    ensures Cut(s, ps)
  {
    var n: nat :| n <= |ps[..i]| && CutAt(s, ps[..i], n);
    assert ps[..i][..n] == ps[..n];
    assert CutAt(s, ps, n);
  }

  lemma {:induction false} StreamLength(ps: seq<Payload>, i: nat)
    requires Sendable(ps) && i <= |ps|
    ensures |Stream(ps[..i])| <= |Stream(ps)|
    decreases |ps|
  {
    if i > 0 {
      assert ps[..i][1..] == ps[1..][..i - 1];
      StreamLength(ps[1..], i - 1);
    }
  }

  // ----- the background thread

  /** Some first messages of the peer, then the disconnect. */
  ghost predicate Reported(events: seq<Event>, understood: seq<Payload>) {
    exists ps :: ps <= understood && events == Messages(ps) + [Disconnected]
  }

  lemma {:induction false} ReportedAre(ps: seq<Payload>, understood: seq<Payload>)
    requires ps <= understood
    ensures Reported(Messages(ps) + [Disconnected], understood)
  {
  }

  /** Open the sender if there is a connection, while other threads send before and after. */
  method OpenAmid(s: Sender, connected: bool, took: nat, early: seq<Attempt>, during: seq<Attempt>)
    returns (up: bool, rEarly: seq<Outcome>, rDuring: seq<Outcome>)
    requires s.Valid() && (s.phase == Pending ==> !s.broken)
    modifies s
    ensures s.Valid() && |rEarly| == |early| && |rDuring| == |during|
    ensures s.accepted == old(s.accepted) + Acked(early, rEarly) + Acked(during, rDuring)
    ensures up <==> connected && old(s.phase) == Pending && took >= StreamSize(old(s.queue) + Acked(early, rEarly))
    ensures up ==> s.phase == Open
  {
    rEarly := s.SendAll(early);
    up := false;
    if connected { up := s.OpenSender(took); }
    rDuring := s.SendAll(during);
  }

  /** The thread of `connect_in_background`: connect, open the sender, read until the peer is
      gone, close the sender. The disconnect is reported once, and last. `incoming` is what the
      peer sends, if there is a connection. Other threads send before the sender is opened, while
      it is open (reading takes no lock), and after it is closed. */
  method BackgroundThread(s: Sender, connected: bool, took: nat, incoming: seq<byte>, decodes: Payload -> bool,
      early: seq<Attempt>, during: seq<Attempt>, late: seq<Attempt>)
    returns (events: seq<Event>, rEarly: seq<Outcome>, rDuring: seq<Outcome>, rLate: seq<Outcome>)
    requires s.Valid() && (s.phase == Pending ==> !s.broken)
    modifies s
    ensures s.Valid() && s.phase == Closed
    ensures |rEarly| == |early| && |rDuring| == |during| && |rLate| == |late| && Sent !in rLate
    ensures s.accepted == old(s.accepted) + Acked(early, rEarly) + Acked(during, rDuring)
    ensures Reported(events, Understood(Decoded(incoming), decodes))
    ensures connected && old(s.phase) == Pending && took >= StreamSize(old(s.queue) + Acked(early, rEarly)) ==>
      events == Messages(Understood(Decoded(incoming), decodes)) + [Disconnected]
  {
    events := [];
    ghost var understood := Understood(Decoded(incoming), decodes);
    ReportedAre([], understood);
    ReportedAre(understood, understood);
    var up;
    up, rEarly, rDuring := OpenAmid(s, connected, took, early, during);
    if up { events := ReadLoop(incoming, decodes, events); }
    s.Close();
    rLate := s.SendAll(late);
    events := events + [Disconnected];
  }
}
