// The G-550 rotator: clamping, the serial command stream, and the controller
// that decodes it.
module Rotator {
  import opened Basics
  import opened Text

  const MAX_AZIMUTH := 359
  const MAX_ELEVATION := 90

  datatype Position = Position(azimuth: int, elevation: int)

  predicate InBounds(p: Position) {
    0 <= p.azimuth <= MAX_AZIMUTH && 0 <= p.elevation <= MAX_ELEVATION
  }

  // ---------------------------------------------------------------- clamping

  /** Conversion of a float to an integer, toward zero. */
  function Truncated(x: real): (n: int)
    ensures x >= 0.0 ==> n as real <= x < n as real + 1.0
    ensures x < 0.0 ==> n as real - 1.0 < x <= n as real
  {
    if x >= 0.0 then x.Floor else -((-x).Floor)
  }

  function Distance(n: int, x: real): (d: real)
    ensures d >= 0.0
  {
    if n as real >= x then n as real - x else x - n as real
  }

  /** The clamped angle is off by less than one degree exactly for the
      azimuths strictly between -1 and 360. */
  function ClampAzimuth(x: real): (n: int)
    ensures 0 <= n <= MAX_AZIMUTH
    ensures Distance(n, x) < 1.0 <==> -1.0 < x < 360.0
    ensures (x < 1.0 ==> n == 0) && (x >= 0.0 ==> n as real <= x) && (x >= 359.0 ==> n == 359)
  {
    var n := Truncated(x);
    if n < 0 then 0 else if n > MAX_AZIMUTH then MAX_AZIMUTH else n
  }

  function ClampElevation(x: real): (n: int)
    ensures 0 <= n <= MAX_ELEVATION
    ensures Distance(n, x) < 1.0 <==> -1.0 < x < 91.0
    ensures (x < 1.0 ==> n == 0) && (x >= 0.0 ==> n as real <= x) && (x >= 90.0 ==> n == 90)
  {
    var n := Truncated(x);
    if n < 0 then 0 else if n > MAX_ELEVATION then MAX_ELEVATION else n
  }

  /** The commanded position lies within one degree of the target on both axes. */
  predicate Near(p: Position, azimuth: real, elevation: real) {
    Distance(p.azimuth, azimuth) < 1.0 && Distance(p.elevation, elevation) < 1.0
  }

  /** The targets the hardware can be brought within one degree of. */
  predicate Reachable(azimuth: real, elevation: real) {
    -1.0 < azimuth < 360.0 && -1.0 < elevation < 91.0
  }

  lemma NearOnlyReachable(p: Position, azimuth: real, elevation: real)
    requires InBounds(p) && Near(p, azimuth, elevation)
    ensures Reachable(azimuth, elevation)
  {
  }

  // ---------------------------------------------------------------- commands

  /** One position command as it goes over the wire. */
  function Command(p: Position): string
    requires p.azimuth >= 0 && p.elevation >= 0
  {
    "W" + Padded(p.azimuth, 4) + " " + Padded(p.elevation, 3) + "\r"
  }

  // -------------------------------------------------------------- controller

  datatype Reply =
    | Moved(to: Position)
    | Answered(at: Position)
    | Unrecognised(line: string)

  datatype Controller = Controller(buffer: string, at: Position, log: seq<Reply>)

  const SWITCHED_ON := Controller("", Position(0, 0), [])

  /** A line, carriage return included, matches the move pattern. */
  predicate IsMove(command: string) {
    |command| == 10
    && command[0] == 'W'
    && (forall i :: 1 <= i < 5 ==> IsDigit(command[i]))
    && command[5] == ' '
    && (forall i :: 6 <= i < 9 ==> IsDigit(command[i]))
    && command[9] == '\r'
  }

  predicate IsQuery(command: string) {
    "C2" <= command || "B" <= command
  }

  function ReplyTo(at: Position, command: string): Reply {
    if IsMove(command) then Moved(Position(ValueOf(command[1..5]), ValueOf(command[6..9])))
    else if IsQuery(command) then Answered(at)
    else Unrecognised(command)
  }

  function PositionAfter(at: Position, reply: Reply): Position {
    if reply.Moved? then reply.to else at
  }

  /** Reference decoder: one byte at a time, a command is complete at its
      carriage return. */
  function Receive(c: Controller, byte: char): Controller {
    if byte != '\r' then c.(buffer := c.buffer + [byte])
    else
      var reply := ReplyTo(c.at, c.buffer + [byte]);
      Controller("", PositionAfter(c.at, reply), c.log + [reply])
  }

  function ReceiveAll(c: Controller, bytes: string): Controller
    decreases |bytes|
  {
    if bytes == "" then c else ReceiveAll(Receive(c, bytes[0]), bytes[1..])
  }

  lemma {:induction false} ReceiveInPieces(c: Controller, front: string, back: string)
    ensures ReceiveAll(c, front + back) == ReceiveAll(ReceiveAll(c, front), back)
    decreases |front|
  {
    if front == "" {
      assert front + back == back;
    } else {
      assert (front + back)[1..] == front[1..] + back;
      ReceiveInPieces(Receive(c, front[0]), front[1..], back);
    }
  }

  lemma {:induction false} ReceiveUnfinished(c: Controller, bytes: string)
    requires '\r' !in bytes
    ensures ReceiveAll(c, bytes) == c.(buffer := c.buffer + bytes)
    decreases |bytes|
  {
    if bytes == "" {
      assert c.buffer + bytes == c.buffer;
    } else {
      ReceiveUnfinished(Receive(c, bytes[0]), bytes[1..]);
      assert c.buffer + [bytes[0]] + bytes[1..] == c.buffer + bytes;
    }
  }

  lemma ReceiveLine(c: Controller, line: string, rest: string)
    requires '\r' !in line
    ensures ReceiveAll(c, line + "\r" + rest)
         == ReceiveAll(Receive(c.(buffer := c.buffer + line), '\r'), rest)
  {
    Regroup(line, "\r", rest);
    ReceiveInPieces(c, line, "\r" + rest);
    ReceiveUnfinished(c, line);
    ReceiveFirst(c.(buffer := c.buffer + line), '\r', rest);
  }

  lemma ReceiveFirst(c: Controller, byte: char, rest: string)
    ensures ReceiveAll(c, [byte] + rest) == ReceiveAll(Receive(c, byte), rest)
  {
    assert ([byte] + rest)[1..] == rest;
  }

  method FindReturn(buffer: string) returns (k: nat)
    requires '\r' in buffer
    ensures k < |buffer| && buffer[k] == '\r' && '\r' !in buffer[..k]
  {
    k := 0;
    while buffer[k] != '\r'
      invariant k < |buffer| && '\r' !in buffer[..k] && '\r' in buffer[k..]
      decreases |buffer| - k
    {
      k := k + 1;
    }
  }

  /** The buffered loop: whatever the chunking of the stream, it ends in the
      state of the byte-at-a-time decoder on the whole stream. */
  method Serve(chunks: seq<string>) returns (final: Controller)
    ensures final == ReceiveAll(SWITCHED_ON, Concat(chunks))
  {
    ghost var start := SWITCHED_ON;
    var at, log, buffer := Position(0, 0), [], "";
    for i := 0 to |chunks|
      invariant Controller(buffer, at, log) == ReceiveAll(start, Concat(chunks[..i]))
      invariant '\r' !in buffer
    {
      ghost var before := Controller(buffer, at, log);
      ReceiveUnfinished(Controller("", at, log), buffer);
      assert "" + buffer == buffer;
      ReceiveInPieces(Controller("", at, log), buffer, chunks[i]);
      buffer := buffer + chunks[i];
      while '\r' in buffer
        invariant ReceiveAll(Controller("", at, log), buffer) == ReceiveAll(before, chunks[i])
        decreases |buffer|
      {
        var k := FindReturn(buffer);
        var line := buffer[..k];
        assert buffer == line + "\r" + buffer[k + 1..];
        ReceiveLine(Controller("", at, log), line, buffer[k + 1..]);
        assert "" + line == line;
        buffer := buffer[k + 1..];
        var reply := ReplyTo(at, line + "\r");
        at := PositionAfter(at, reply);
        log := log + [reply];
      }
      ReceiveUnfinished(Controller("", at, log), buffer);
      assert "" + buffer == buffer;
      assert chunks[..i + 1][..i] == chunks[..i];
      ReceiveInPieces(start, Concat(chunks[..i]), chunks[i]);
    }
    assert chunks[..|chunks|] == chunks;
    final := Controller(buffer, at, log);
  }

  // --------------------------------------------------------------- the wire

  /** One attempt to send a position: the bytes of the command that reached the
      wire, and whether the serial port reported success. */
  datatype Attempt = Attempt(target: Position, bytes: string, ok: bool)

  predicate WellFormed(a: Attempt) {
    InBounds(a.target) && a.bytes <= Command(a.target) && (a.ok ==> a.bytes == Command(a.target))
  }

  predicate AllWellFormed(attempts: seq<Attempt>) {
    forall i :: 0 <= i < |attempts| ==> WellFormed(attempts[i])
  }

  function Wire(attempts: seq<Attempt>): string {
    if attempts == [] then "" else attempts[0].bytes + Wire(attempts[1..])
  }

  /** The replies of a controller that carries out exactly the positions whose
      sending succeeded, in order. */
  function Commanded(attempts: seq<Attempt>): seq<Reply> {
    if attempts == [] then []
    else if attempts[0].ok then [Moved(attempts[0].target)] + Commanded(attempts[1..])
    else Commanded(attempts[1..])
  }

  const COMMAND_LENGTH := 10

  /** The whole command reached the wire, whether or not the port said so. */
  predicate Complete(a: Attempt) { |a.bytes| == COMMAND_LENGTH }

  lemma CommandShape(p: Position)
    requires InBounds(p)
    ensures IsMove(Command(p)) && '\r' !in Command(p)[..9]
    ensures forall at :: ReplyTo(at, Command(p)) == Moved(p)
  {
    WideCommand(p, p);
    forall at ensures ReplyTo(at, Command(p)) == Moved(p) { WideCommand(p, at); }
  }

  lemma WideCommand(p: Position, at: Position)
    requires 0 <= p.azimuth < 10000 && 0 <= p.elevation < 1000
    ensures IsMove(Command(p)) && '\r' !in Command(p)[..9]
    ensures ReplyTo(at, Command(p)) == Moved(p)
  {
    var c, az, el := Command(p), Padded(p.azimuth, 4), Padded(p.elevation, 3);
    assert Pow10(2) == 100;
    assert Pow10(3) == 1000;
    assert Pow10(4) == 10000;
    PaddedReadsBack(p.azimuth, 4);
    PaddedReadsBack(p.elevation, 3);
    assert c[1..5] == az;
    assert c[6..9] == el;
    forall i | 1 <= i < 5 ensures IsDigit(c[i]) { assert c[i] == az[i - 1]; }
    forall i | 6 <= i < 9 ensures IsDigit(c[i]) { assert c[i] == el[i - 6]; }
    assert c[5] == ' ' && c[9] == '\r' && c[0] == 'W';
  }

  /** The controller moves on exactly the lines that are commands, of four and three digits, and to the position they say. */
  lemma MovesExactlyOnCommands(at: Position, line: string)
    ensures ReplyTo(at, line).Moved? <==>
              exists azimuth: nat, elevation: nat ::
                azimuth < 10000 && elevation < 1000 && line == Command(Position(azimuth, elevation))
    ensures forall azimuth: nat, elevation: nat :: azimuth < 10000 && elevation < 1000 && line == Command(Position(azimuth, elevation)) ==>
              ReplyTo(at, line) == Moved(Position(azimuth, elevation))
  {
    if IsMove(line) {
      var az, el := line[1..5], line[6..9];
      PaddedOfValue(az);
      PaddedOfValue(el);
      assert Pow10(4) == 10000 && Pow10(3) == 1000;
      assert line == "W" + az + " " + el + "\r";
      assert line == Command(Position(ValueOf(az), ValueOf(el)));
    }
    forall azimuth: nat, elevation: nat | azimuth < 10000 && elevation < 1000 && line == Command(Position(azimuth, elevation))
      ensures ReplyTo(at, line) == Moved(Position(azimuth, elevation))
    {
      WideCommand(Position(azimuth, elevation), at);
    }
  }

  /** A position query is answered with the position last moved to. */
  lemma QueryAnswersLastMove(c: Controller, p: Position)
    requires InBounds(p) && c.buffer == ""
    ensures ReceiveAll(c, Command(p) + "B\r").log == c.log + [Moved(p), Answered(p)]
    ensures ReceiveAll(c, Command(p) + "C2\r").log == c.log + [Moved(p), Answered(p)]
  {
    CommandShape(p);
    MovesTo(c, p, "B\r");
    MovesTo(c, p, "C2\r");
    var moved := Controller("", p, c.log + [Moved(p)]);
    QueryLine(moved, "B");
    QueryLine(moved, "C2");
  }

  lemma MovesTo(c: Controller, p: Position, rest: string)
    requires InBounds(p) && c.buffer == ""
    ensures ReceiveAll(c, Command(p) + rest) == ReceiveAll(Controller("", p, c.log + [Moved(p)]), rest)
  {
    CommandShape(p);
    var line := Command(p)[..9];
    assert Command(p) == line + "\r";
    ReceiveLine(c, line, rest);
    assert "" + line == line;
  }

  lemma QueryLine(c: Controller, line: string)
    requires c.buffer == "" && (line == "B" || line == "C2")
    ensures ReceiveAll(c, line + "\r").log == c.log + [Answered(c.at)]
  {
    ReceiveLine(c, line, "");
    assert line + "\r" + "" == line + "\r";
    assert "" + line == line;
    var command := line + "\r";
    assert command[0] == line[0];
    assert IsQuery(command);
  }

  /** What is left in a controller's buffer: nothing, or the beginnings of commands. */
  predicate Unfinished(buffer: string) {
    '\r' !in buffer && (buffer != "" ==> buffer[0] == 'W')
  }

  lemma AttemptShape(a: Attempt)
    requires WellFormed(a)
    ensures Complete(a) ==> a.bytes == Command(a.target) && a.bytes == a.bytes[..9] + "\r" && Unfinished(a.bytes[..9])
    ensures !Complete(a) ==> !a.ok && Unfinished(a.bytes)
  {
    CommandShape(a.target);
    var command := Command(a.target);
    if Complete(a) {
      assert a.bytes[..9] == command[..9];
    } else {
      assert a.bytes == command[..9][..|a.bytes|];
    }
  }

  /** How the controller replies to a complete command that finds `pending` in the buffer. */
  function ReplyToComplete(a: Attempt, pending: string): Reply {
    if pending == "" then Moved(a.target) else Unrecognised(pending + a.bytes)
  }

  lemma CompleteAnswered(a: Attempt, pending: string, at: Position)
    requires WellFormed(a) && Complete(a) && Unfinished(pending)
    ensures ReplyTo(at, pending + a.bytes) == ReplyToComplete(a, pending)
  {
    CommandShape(a.target);
    AttemptShape(a);
    var command := pending + a.bytes;
    if pending == "" {
      assert command == a.bytes;
    } else {
      assert command[0] == 'W' && |command| > COMMAND_LENGTH;
    }
  }

  lemma ReceiveComplete(c: Controller, a: Attempt, rest: string) returns (after: Controller)
    requires WellFormed(a) && Complete(a) && Unfinished(c.buffer)
    ensures after.buffer == "" && after.log == c.log + [ReplyToComplete(a, c.buffer)]
    ensures ReceiveAll(c, a.bytes + rest) == ReceiveAll(after, rest)
  {
    AttemptShape(a);
    CompleteAnswered(a, c.buffer, c.at);
    var line := a.bytes[..9];
    ReceiveLine(c, line, rest);
    Regroup(c.buffer, line, "\r");
    after := Receive(c.(buffer := c.buffer + line), '\r');
  }

  lemma ReceiveIncomplete(c: Controller, a: Attempt, rest: string)
    requires WellFormed(a) && !Complete(a) && Unfinished(c.buffer)
    ensures Unfinished(c.buffer + a.bytes)
    ensures ReceiveAll(c, a.bytes + rest) == ReceiveAll(c.(buffer := c.buffer + a.bytes), rest)
  {
    AttemptShape(a);
    ReceiveInPieces(c, a.bytes, rest);
    ReceiveUnfinished(c, a.bytes);
  }

  /** What the controller makes of any attempts whatever: an incomplete command
      stays in the buffer, and the next complete one, if there is one, is taken
      for part of it and lost. */
  function Decoded(attempts: seq<Attempt>, pending: string): seq<Reply>
    decreases |attempts|
  {
    if attempts == [] then []
    else if Complete(attempts[0]) then [ReplyToComplete(attempts[0], pending)] + Decoded(attempts[1..], "")
    else Decoded(attempts[1..], pending + attempts[0].bytes)
  }

  lemma {:induction false} DecodesExactly(c: Controller, attempts: seq<Attempt>)
    requires AllWellFormed(attempts) && Unfinished(c.buffer)
    ensures ReceiveAll(c, Wire(attempts)).log == c.log + Decoded(attempts, c.buffer)
    decreases |attempts|
  {
    if attempts != [] {
      var first, rest := attempts[0], attempts[1..];
      assert WellFormed(first);
      if Complete(first) {
        var after := ReceiveComplete(c, first, Wire(rest));
        DecodesExactly(after, rest);
        Regroup(c.log, [ReplyToComplete(first, c.buffer)], Decoded(rest, ""));
      } else {
        ReceiveIncomplete(c, first, Wire(rest));
        DecodesExactly(c.(buffer := c.buffer + first.bytes), rest);
      }
    }
  }

  predicate NoneComplete(attempts: seq<Attempt>) {
    forall i :: 0 <= i < |attempts| ==> !Complete(attempts[i])
  }

  /** Torn commands, one or several, with failures that wrote nothing among
      them, cost exactly the next command that gets through whole; decoding then
      goes on as if nothing had happened. */
  lemma TornCommandCostsTheNext(c: Controller, torn: seq<Attempt>, next: Attempt, rest: seq<Attempt>)
    requires c.buffer == "" && AllWellFormed(torn) && WellFormed(next) && AllWellFormed(rest)
    requires NoneComplete(torn) && Wire(torn) != "" && Complete(next)
    ensures ReceiveAll(c, Wire(torn + [next] + rest)).log
         == c.log + [Unrecognised(Wire(torn) + next.bytes)] + Decoded(rest, "")
  {
    assert torn + [next] + rest == torn + ([next] + rest);
    assert ([next] + rest)[1..] == rest;
    DecodedPastTorn(torn, [next] + rest, "");
    assert "" + Wire(torn) == Wire(torn);
    DecodesExactly(c, torn + [next] + rest);
    Regroup(c.log, [Unrecognised(Wire(torn) + next.bytes)], Decoded(rest, ""));
  }

  lemma {:induction false} DecodedPastTorn(torn: seq<Attempt>, rest: seq<Attempt>, pending: string)
    requires NoneComplete(torn)
    ensures Decoded(torn + rest, pending) == Decoded(rest, pending + Wire(torn))
    decreases |torn|
  {
    if torn == [] {
      assert torn + rest == rest;
      assert pending + "" == pending;
    } else {
      assert (torn + rest)[1..] == torn[1..] + rest;
      DecodedPastTorn(torn[1..], rest, pending + torn[0].bytes);
      Regroup(pending, torn[0].bytes, Wire(torn[1..]));
    }
  }

  // -------------------------------------------------- when the round trip holds

  /** Every command that got through whole was acknowledged by the port. */
  predicate Acknowledged(attempts: seq<Attempt>) {
    forall i :: 0 <= i < |attempts| && Complete(attempts[i]) ==> attempts[i].ok
  }

  /** No command left in pieces is followed by one that got through whole. */
  predicate NoneTorn(attempts: seq<Attempt>) {
    forall i, j :: 0 <= i < j < |attempts| && Complete(attempts[j]) ==>
      Complete(attempts[i]) || attempts[i].bytes == ""
  }

  lemma NoneCompleteCons(a: Attempt, rest: seq<Attempt>)
    ensures NoneComplete([a] + rest) <==> !Complete(a) && NoneComplete(rest)
    ensures Acknowledged([a] + rest) <==> (Complete(a) ==> a.ok) && Acknowledged(rest)
  {
    var all := [a] + rest;
    assert all[0] == a;
    assert forall i :: 0 <= i < |rest| ==> all[i + 1] == rest[i];
  }

  lemma NoneTornCons(a: Attempt, rest: seq<Attempt>)
    ensures NoneTorn([a] + rest) <==>
              NoneTorn(rest) && (Complete(a) || a.bytes == "" || NoneComplete(rest))
  {
    var all := [a] + rest;
    assert all[0] == a;
    assert forall i :: 0 <= i < |rest| ==> all[i + 1] == rest[i];
    if NoneTorn(all) {
      forall i, j | 0 <= i < j < |rest| && Complete(rest[j])
        ensures Complete(rest[i]) || rest[i].bytes == ""
      {
        assert Complete(all[j + 1]) && all[i + 1] == rest[i];
      }
      if !Complete(a) && a.bytes != "" {
        forall j | 0 <= j < |rest| ensures !Complete(rest[j]) {
          assert all[j + 1] == rest[j];
        }
      }
    }
  }

  /** The controller never replies to fewer commands than were acknowledged. */
  lemma {:induction false} CommandedNoLonger(attempts: seq<Attempt>, pending: string)
    requires AllWellFormed(attempts)
    ensures |Commanded(attempts)| <= |Decoded(attempts, pending)|
    decreases |attempts|
  {
    if attempts != [] {
      AttemptShape(attempts[0]);
      CommandedNoLonger(attempts[1..], if Complete(attempts[0]) then "" else pending + attempts[0].bytes);
    }
  }

  /** The condition, for a buffer that already holds `pending`. */
  predicate RoundTrips(attempts: seq<Attempt>, pending: string) {
    Acknowledged(attempts) && (if pending == "" then NoneTorn(attempts) else NoneComplete(attempts))
  }

  lemma RoundTripsCons(a: Attempt, rest: seq<Attempt>, pending: string)
    ensures RoundTrips([a] + rest, pending) <==>
              if Complete(a) then a.ok && pending == "" && RoundTrips(rest, "")
              else RoundTrips(rest, pending + a.bytes)
  {
    NoneCompleteCons(a, rest);
    NoneTornCons(a, rest);
    NoneCompleteNoneTorn(rest);
    assert pending + a.bytes == "" <==> pending == "" && a.bytes == "";
  }

  lemma NoneCompleteNoneTorn(attempts: seq<Attempt>)
    ensures NoneComplete(attempts) ==> NoneTorn(attempts)
  {
  }

  lemma {:induction false} DecodedIsCommanded(attempts: seq<Attempt>, pending: string)
    requires AllWellFormed(attempts)
    ensures Decoded(attempts, pending) == Commanded(attempts) <==> RoundTrips(attempts, pending)
    decreases |attempts|
  {
    if attempts != [] {
      var first, rest := attempts[0], attempts[1..];
      assert attempts == [first] + rest;
      AttemptShape(first);
      RoundTripsCons(first, rest, pending);
      if !Complete(first) {
        DecodedIsCommanded(rest, pending + first.bytes);
      } else if !first.ok {
        CommandedNoLonger(rest, "");
      } else {
        DecodedIsCommanded(rest, "");
        SameTail(ReplyToComplete(first, pending), Decoded(rest, ""), Moved(first.target), Commanded(rest));
      }
    }
  }

  lemma SameTail(x: Reply, xs: seq<Reply>, y: Reply, ys: seq<Reply>)
    ensures [x] + xs == [y] + ys <==> x == y && xs == ys
  {
    if [x] + xs == [y] + ys {
      assert ([x] + xs)[0] == x && ([y] + ys)[0] == y;
      assert ([x] + xs)[1..] == xs && ([y] + ys)[1..] == ys;
    }
  }

  /** Round trip: the controller carries out exactly the positions the rotator
      counts as commanded if and only if every command that got through whole
      was acknowledged and none of them followed one left in pieces. */
  lemma DecodesWhatWasCommanded(c: Controller, attempts: seq<Attempt>)
    requires AllWellFormed(attempts) && c.buffer == ""
    ensures ReceiveAll(c, Wire(attempts)).log == c.log + Commanded(attempts)
       <==> Acknowledged(attempts) && NoneTorn(attempts)
  {
    DecodesExactly(c, attempts);
    DecodedIsCommanded(attempts, "");
    var log := ReceiveAll(c, Wire(attempts)).log;
    assert log[|c.log|..] == Decoded(attempts, "");
    assert (c.log + Commanded(attempts))[|c.log|..] == Commanded(attempts);
  }

  /** The condition can fail: a port that fails after the last byte moves the
      antenna although nothing counts as commanded. */
  lemma MovesUnacknowledged(p: Position)
    requires InBounds(p)
    ensures var attempts := [Attempt(p, Command(p), false)];
            && AllWellFormed(attempts) && Commanded(attempts) == []
            && ReceiveAll(SWITCHED_ON, Wire(attempts)).log == [Moved(p)]
  {
    var attempts := [Attempt(p, Command(p), false)];
    CommandShape(p);
    DecodesExactly(SWITCHED_ON, attempts);
    assert attempts[1..] == [];
  }

  /** Every position the controller ever moves to is one the hardware accepts. */
  lemma {:induction false} DecodedInBounds(attempts: seq<Attempt>, pending: string)
    requires AllWellFormed(attempts)
    ensures forall i :: 0 <= i < |Decoded(attempts, pending)| && Decoded(attempts, pending)[i].Moved? ==>
              InBounds(Decoded(attempts, pending)[i].to)
    decreases |attempts|
  {
    if attempts != [] {
      assert WellFormed(attempts[0]);
      DecodedInBounds(attempts[1..], if Complete(attempts[0]) then "" else pending + attempts[0].bytes);
    }
  }

  /** Main result, rotator to controller: however the bytes of the wire are cut
      into chunks, the controller ends with exactly the decoded replies, never
      leaves the hardware's range, and carries out what was commanded if and
      only if the wire's condition holds. */
  lemma StreamRoundTrip(attempts: seq<Attempt>, chunks: seq<string>, final: Controller)
    requires AllWellFormed(attempts) && Concat(chunks) == Wire(attempts)
    requires final == ReceiveAll(SWITCHED_ON, Concat(chunks))
    ensures final.log == Decoded(attempts, "")
    ensures forall i :: 0 <= i < |final.log| && final.log[i].Moved? ==> InBounds(final.log[i].to)
    ensures final.log == Commanded(attempts) <==> Acknowledged(attempts) && NoneTorn(attempts)
  {
    DecodesExactly(SWITCHED_ON, attempts);
    DecodedInBounds(attempts, "");
    DecodedIsCommanded(attempts, "");
  }

  /** The controller on the other end of the rotator's wire. */
  method ServeRotator(rotator: G550, chunks: seq<string>) returns (final: Controller)
    requires rotator.Valid() && Concat(chunks) == rotator.wire
    ensures final.log == Decoded(rotator.attempts, "")
    ensures final.log == Commanded(rotator.attempts)
       <==> Acknowledged(rotator.attempts) && NoneTorn(rotator.attempts)
  {
    final := Serve(chunks);
    StreamRoundTrip(rotator.attempts, chunks, final);
  }

  // ------------------------------------------------------------ the rotator

  class G550 {
    const parkAt: Position
    var lastCommanded: Option<Position>
    var attempts: seq<Attempt>
    var wire: string

    ghost predicate Valid()
      reads this
    {
      InBounds(parkAt)
      && AllWellFormed(attempts)
      && wire == Wire(attempts)
      && (lastCommanded.Some? ==> InBounds(lastCommanded.value))
    }

    constructor (parkAt: Position)
      requires InBounds(parkAt)
      ensures Valid() && this.parkAt == parkAt && attempts == [] && lastCommanded == None
    {
      this.parkAt := parkAt;
      lastCommanded, attempts, wire := None, [], "";
    }

    /** Writes one command; a failing port may have taken any part of it. */
    method Send(target: Position) returns (ok: bool)
      requires Valid() && InBounds(target)
      modifies this`attempts, this`wire
      ensures Valid()
      ensures exists bytes :: attempts == old(attempts) + [Attempt(target, bytes, ok)]
    {
      var command := Command(target);
      ok := *;
      var written: nat :| written <= |command| && (ok ==> written == |command|);
      var bytes := command[..written];
      WireAppend(attempts, Attempt(target, bytes, ok));
      wire := wire + bytes;
      attempts := attempts + [Attempt(target, bytes, ok)];
    }

    /** An exact position; out-of-range angles are refused before the port is
        touched. */
    method MoveTo(target: Position) returns (ok: bool)
      requires Valid()
      modifies this
      ensures Valid()
      ensures !InBounds(target) ==> !ok && attempts == old(attempts)
      ensures InBounds(target) ==>
                exists bytes :: attempts == old(attempts) + [Attempt(target, bytes, ok)]
      ensures lastCommanded == if ok then Some(target) else old(lastCommanded)
    {
      if !InBounds(target) { return false; }
      ok := Send(target);
      if ok { lastCommanded := Some(target); }
    }

    /** A tracking position, clamped: on success the commanded position is
        within one degree of the target exactly when the target is reachable. */
    method TrackTo(azimuth: real, elevation: real) returns (ok: bool)
      requires Valid()
      modifies this
      ensures Valid()
      ensures |attempts| == |old(attempts)| + 1 && old(attempts) <= attempts
      ensures attempts[|attempts| - 1].ok == ok
      ensures !ok ==> lastCommanded == old(lastCommanded)
      ensures ok ==>
                && lastCommanded == Some(attempts[|attempts| - 1].target)
                && (Near(lastCommanded.value, azimuth, elevation) <==> Reachable(azimuth, elevation))
    {
      ok := MoveTo(Position(ClampAzimuth(azimuth), ClampElevation(elevation)));
    }

    method Park() returns (ok: bool)
      requires Valid()
      modifies this
      ensures Valid()
      ensures exists bytes :: attempts == old(attempts) + [Attempt(parkAt, bytes, ok)]
      ensures lastCommanded == if ok then Some(parkAt) else old(lastCommanded)
    {
      ok := MoveTo(parkAt);
    }
  }

  lemma {:induction false} WireAppend(attempts: seq<Attempt>, a: Attempt)
    ensures Wire(attempts + [a]) == Wire(attempts) + a.bytes
    decreases |attempts|
  {
    if attempts == [] {
      assert [a][1..] == [];
    } else {
      assert (attempts + [a])[1..] == attempts[1..] + [a];
      WireAppend(attempts[1..], a);
    }
  }
}
