/**
 * What the command generator promises, proved about `CommandSpec` and
 * `Scan`: it does nothing until asked for a value, stops at the first failed
 * step, and the first response line decides what it yields or raises. Also
 * the shape of the command lines themselves.
 */
module CommandProperties {
  import opened PhpStrings
  import opened Protocol
  import opened Transport
  import opened Memcached

  /** The client neither fails to connect nor fails to write. */
  predicate Ready(s: State) {
    !s.connectFails && !s.writeFails
  }

  /** The chunks the first `read()` will hand out. */
  function FirstRead(s: State): seq<string> {
    if s.script == [] then [] else s.script[0]
  }

  /** The chunks the read after that will hand out. */
  function SecondRead(s: State): seq<string> {
    if |s.script| < 2 then [] else s.script[1]
  }

  /** The first response line, if the first read yields a chunk at all. */
  function FirstLine(s: State): Option<string> {
    if FirstRead(s) == [] then None else Some(ResponseLine(FirstRead(s)[0]))
  }

  /** The client after `connect`, `write(command + "\r\n")` and one `read()`. */
  function Awaiting(s: State, command: string): State {
    ReadStep(WriteStep(ConnectStep(s).1, Frame(command)).1, None).1
  }

  /** The calls a command makes before its response is classified. */
  lemma AwaitingLog(s: State, command: string)
    ensures Awaiting(s, command).log == s.log + [Connect, Write(command + "\r\n"), Read(None)]
  {
    assert s.log + [Connect] + [Write(Frame(command))] + [Read(None)] == s.log + [Connect, Write(command + "\r\n"), Read(None)];
  }

  // ------------------------------------------------------- before the reply

  /** A generator nobody asks for a value does nothing at all. */
  lemma CommandIsLazy(s: State, command: string, noWait: bool)
    ensures CommandSpec(s, command, noWait, 0) == (Run([], Suspended), s)
  {
  }

  /** A failed `connect` stops the command before anything is written. */
  lemma ConnectFailureStopsCommand(s: State, command: string, noWait: bool, demand: nat)
    requires demand >= 1 && s.connectFails
    ensures CommandSpec(s, command, noWait, demand) == (Run([], Threw(ConnectionFailed)), s.(log := s.log + [Connect]))
  {
  }

  /** A failed `write` stops the command before anything is read. */
  lemma WriteFailureStopsCommand(s: State, command: string, noWait: bool, demand: nat)
    requires demand >= 1 && !s.connectFails && s.writeFails
    ensures CommandSpec(s, command, noWait, demand)
         == (Run([], Threw(WriteFailed)), s.(log := s.log + [Connect, Write(command + "\r\n")]))
  {
    assert s.log + [Connect] + [Write(Frame(command))] == s.log + [Connect, Write(command + "\r\n")];
  }

  /** Without waiting, the command connects, writes `command + "\r\n"`, yields
      the count written and reads nothing. */
  lemma NoWaitWritesOnly(s: State, command: string, demand: nat)
    requires demand >= 1 && Ready(s)
    ensures CommandSpec(s, command, true, demand).0.produced == [Written(|command| + 2)]
    ensures CommandSpec(s, command, true, demand).1 == s.(log := s.log + [Connect, Write(command + "\r\n")])
  {
    assert s.log + [Connect] + [Write(Frame(command))] == s.log + [Connect, Write(command + "\r\n")];
  }

  /** Waiting for a reply, the command hands the chunks of its one `read()`
      to the response loop. */
  lemma CommandReads(s: State, command: string, demand: nat)
    requires demand >= 1 && Ready(s)
    ensures CommandSpec(s, command, false, demand) == Scan(FirstRead(s), 0, [], Awaiting(s, command), demand)
  {
  }

  // --------------------------------------------------- the first reply line

  /** `END` as the first line, or no line at all: the current value is null
      and nothing more is read. */
  lemma EndYieldsNull(s: State, command: string)
    requires Ready(s)
    requires FirstLine(s).None? || FirstLine(s) == Some("END")
    ensures Current(CommandSpec(s, command, false, 1).0) == Ok(Null)
    ensures CommandSpec(s, command, false, 1).1 == Awaiting(s, command)
  {
    CommandReads(s, command, 1);
    if FirstLine(s).Some? {
      ClassifyCases(FirstLine(s).value);
    }
  }

  /** A `CLIENT_ERROR ` line raises a client error carrying the line and the
      first chunk of one extra `read(1024)`. */
  lemma ClientErrorRaises(s: State, command: string)
    requires Ready(s) && FirstLine(s).Some?
    requires StartsWith(FirstLine(s).value, "CLIENT_ERROR ")
    ensures Current(CommandSpec(s, command, false, 1).0) == Err(ClientError(FirstLine(s).value + Detail(SecondRead(s))))
    ensures CommandSpec(s, command, false, 1).1 == ReadStep(Awaiting(s, command), Some(1024)).1
  {
    CommandReads(s, command, 1);
    ClassifyCases(FirstLine(s).value);
  }

  /** A `SERVER_ERROR ` line raises a server error carrying the line and the
      first chunk of one extra `read(1024)`. */
  lemma ServerErrorRaises(s: State, command: string)
    requires Ready(s) && FirstLine(s).Some?
    requires StartsWith(FirstLine(s).value, "SERVER_ERROR ")
    ensures Current(CommandSpec(s, command, false, 1).0) == Err(ServerError(FirstLine(s).value + Detail(SecondRead(s))))
    ensures CommandSpec(s, command, false, 1).1 == ReadStep(Awaiting(s, command), Some(1024)).1
  {
    CommandReads(s, command, 1);
    ClassifyCases(FirstLine(s).value);
  }

  /** A bare `ERROR` line raises the generic error and reads nothing more. */
  lemma ErrorRaises(s: State, command: string)
    requires Ready(s) && FirstLine(s) == Some("ERROR")
    ensures Current(CommandSpec(s, command, false, 1).0) == Err(CommandFailed)
    ensures CommandSpec(s, command, false, 1).1 == Awaiting(s, command)
  {
    CommandReads(s, command, 1);
    ClassifyCases(FirstLine(s).value);
  }

  /** Every other line, the empty one included, is yielded as it is, and
      nothing more is read. */
  lemma OtherLinesYielded(s: State, command: string)
    requires Ready(s) && FirstLine(s).Some? && !IsControlLine(FirstLine(s).value)
    ensures Current(CommandSpec(s, command, false, 1).0) == Ok(Line(FirstLine(s).value))
    ensures CommandSpec(s, command, false, 1).1 == Awaiting(s, command)
  {
    CommandReads(s, command, 1);
    ClassifyCases(FirstLine(s).value);
  }

  /** Apart from `END`, a control line makes the current value an error. */
  lemma ControlLinesFail(s: State, command: string)
    requires Ready(s) && FirstLine(s).Some? && IsControlLine(FirstLine(s).value) && FirstLine(s) != Some("END")
    ensures Current(CommandSpec(s, command, false, 1).0).Err?
  {
    CommandReads(s, command, 1);
    ClassifyCases(FirstLine(s).value);
  }

  // ---------------------------------------------------- the response loop

  /** The values yielded for the chunks `i` up to `n`. */
  function LinesOf(chunks: seq<string>, i: nat, n: nat): seq<Yielded>
    requires i <= n <= |chunks|
    decreases n - i
  {
    if i == n then [] else [Line(ResponseLine(chunks[i]))] + LinesOf(chunks, i + 1, n)
  }

  /** Asked for enough values, the loop yields every plain line in order and
      then null for `END`: a response of `n` plain lines and `END` is produced
      whole, and the client is not touched. */
  lemma {:induction false} ScanYieldsLines(chunks: seq<string>, n: nat, i: nat, produced: seq<Yielded>, s: State)
    requires i <= n < |chunks| && |produced| == i
    requires forall k :: 0 <= k < n ==> !IsControlLine(ResponseLine(chunks[k]))
    requires ResponseLine(chunks[n]) == "END"
    ensures Scan(chunks, i, produced, s, n + 1) == (Run(produced + LinesOf(chunks, i, n) + [Null], Suspended), s)
    decreases n - i
  {
    if i < n {
      ScanYieldsLines(chunks, n, i + 1, produced + [Line(ResponseLine(chunks[i]))], s);
      ScanLinesStep(chunks, n, i, produced, s);
    } else {
      ScanEndStep(chunks, i, produced, s, n + 1);
      assert produced + LinesOf(chunks, i, n) == produced;
    }
  }

  lemma ScanLinesStep(chunks: seq<string>, n: nat, i: nat, produced: seq<Yielded>, s: State)
    requires i < n < |chunks| && |produced| == i
    requires !IsControlLine(ResponseLine(chunks[i]))
    requires var more := produced + [Line(ResponseLine(chunks[i]))];
             Scan(chunks, i + 1, more, s, n + 1) == (Run(more + LinesOf(chunks, i + 1, n) + [Null], Suspended), s)
    ensures Scan(chunks, i, produced, s, n + 1) == (Run(produced + LinesOf(chunks, i, n) + [Null], Suspended), s)
  {
    var more := produced + [Line(ResponseLine(chunks[i]))];
    ScanPlainStep(chunks, i, produced, s, n + 1);
    assert more + LinesOf(chunks, i + 1, n) == produced + LinesOf(chunks, i, n);
  }

  /** A plain line short of the demand is yielded and the loop goes on. */
  lemma ScanPlainStep(chunks: seq<string>, i: nat, produced: seq<Yielded>, s: State, demand: nat)
    requires i < |chunks| && |produced| + 1 < demand
    requires !IsControlLine(ResponseLine(chunks[i]))
    ensures Scan(chunks, i, produced, s, demand) == Scan(chunks, i + 1, produced + [Line(ResponseLine(chunks[i]))], s, demand)
  {
    ClassifyCases(ResponseLine(chunks[i]));
  }

  /** `END` adds null and ends the loop; meeting the demand exactly, the
      generator is suspended there. */
  lemma ScanEndStep(chunks: seq<string>, i: nat, produced: seq<Yielded>, s: State, demand: nat)
    requires i < |chunks| && |produced| + 1 == demand
    requires ResponseLine(chunks[i]) == "END"
    ensures Scan(chunks, i, produced, s, demand) == (Run(produced + [Null], Suspended), s)
  {
    ClassifyCases(ResponseLine(chunks[i]));
  }

  /** The response loop reads at most once more, for the detail of an error
      line; otherwise it leaves the client as it is. */
  lemma {:induction false} ScanReadsAtMostOnce(chunks: seq<string>, i: nat, produced: seq<Yielded>, s: State, demand: nat)
    requires i <= |chunks| && |produced| < demand
    ensures var s' := Scan(chunks, i, produced, s, demand).1;
            s' == s || s' == ReadStep(s, Some(ErrorDetailLength)).1
    decreases |chunks| - i
  {
    if i < |chunks| {
      var line := ResponseLine(chunks[i]);
      match Classify(line)
      case Payload =>
        if |produced| + 1 < demand {
          ScanReadsAtMostOnce(chunks, i + 1, produced + [Line(line)], s, demand);
        }
      case _ =>
    }
  }

  /** Where a command asked for one value can leave the client: after the
      `connect` alone, after the `write`, after the `read()`, or after one
      more `read(1024)`. */
  predicate CommandEnd(s: State, command: string, s': State) {
    var connected := ConnectStep(s).1;
    var written := WriteStep(connected, Frame(command)).1;
    || s' == connected
    || s' == written
    || s' == Awaiting(s, command)
    || s' == ReadStep(Awaiting(s, command), Some(ErrorDetailLength)).1
  }

  lemma CommandEnds(s: State, command: string, noWait: bool)
    ensures CommandEnd(s, command, CommandSpec(s, command, noWait, 1).1)
  {
    if Ready(s) && !noWait {
      CommandReads(s, command, 1);
      ScanReadsAtMostOnce(FirstRead(s), 0, [], Awaiting(s, command), 1);
    }
  }

  /** `log'` is `log` followed by a `connect`, and maybe more. */
  predicate Connects(log: seq<Call>, log': seq<Call>) {
    |log'| > |log| && log'[..|log|] == log && log'[|log|] == Connect
  }

  lemma ConnectsAppend(log: seq<Call>, log': seq<Call>, c: Call)
    requires Connects(log, log')
    ensures Connects(log, log' + [c])
  {
    assert (log' + [c])[..|log|] == log'[..|log|];
  }

  /** Every command, asked for a value, starts by connecting. */
  lemma CommandConnects(s: State, command: string, noWait: bool)
    ensures Connects(s.log, CommandSpec(s, command, noWait, 1).1.log)
  {
    CommandEnds(s, command, noWait);
    var connected := ConnectStep(s).1;
    var written := WriteStep(connected, Frame(command)).1;
    assert connected.log[..|s.log|] == s.log;
    ConnectsAppend(s.log, connected.log, Write(Frame(command)));
    ConnectsAppend(s.log, written.log, Read(None));
    ConnectsAppend(s.log, Awaiting(s, command).log, Read(Some(ErrorDetailLength)));
  }

  // ------------------------------------------------------ the command lines

  /** With a valid key, each command is a single protocol line: the only line
      breaks on the wire are the terminator (and, for `set`, the one before
      the data block). */
  lemma CommandsAreSingleLines(key: string, ttl: int, data: string)
    requires ValidKey(key)
    ensures '\r' !in GetCommand(key) && '\n' !in GetCommand(key)
    ensures '\r' !in DeleteCommand(key) && '\n' !in DeleteCommand(key)
    ensures '\r' !in SetHeader(key, ttl, data) && '\n' !in SetHeader(key, ttl, data)
  {
    NoBreakInKey(key);
    FormatIntHasNoBreak(ttl);
    FormatIntHasNoBreak(|data|);
    FormatIntHasNoBreak(Flags);
  }

  lemma NoBreakInKey(key: string)
    requires ValidKey(key)
    ensures '\r' !in key && '\n' !in key && ' ' !in key
  {
    forall k | 0 <= k < |key| ensures key[k] != '\r' && key[k] != '\n' && key[k] != ' ' {
      assert !IsForbiddenKeyChar(key[k]);
    }
  }

  lemma FormatIntHasNoBreak(n: int)
    ensures '\r' !in FormatInt(n) && '\n' !in FormatInt(n) && ' ' !in FormatInt(n)
  {
    var d := FormatNat(if n < 0 then -n else n);
    forall k | 0 <= k < |d| ensures d[k] != '\r' && d[k] != '\n' && d[k] != ' ' {
      assert IsDigit(d[k]);
    }
  }
}
