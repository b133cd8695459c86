/**
 * The facade: `get`, `set` and `delete` over one client, and the generator
 * that sends a command and classifies the response lines.
 *
 * A PHP generator runs its body only as far as its consumer asks. The model
 * makes that demand explicit: `Command` runs the generator body until it has
 * produced `demand` values or stopped, and `get`, `set` and `delete` only ask
 * for the current value, that is demand 1.
 *
 * Each state-changing method is tied to a function of the client's old
 * observable state (`GetSpec`, `SetSpec`, `DeleteSpec`, `CommandSpec`); the
 * properties of those functions are proved in modules `CommandProperties` and `FacadeProperties`.
 */
module Memcached {
  import opened PhpStrings
  import opened Protocol
  import opened Transport

  /** A value the generator produced: the byte count of a no-wait write, a
      response line, or null. */
  datatype Yielded = Written(count: int) | Line(text: string) | Null

  /** How far the generator body got: suspended at a yield because the demand
      was met, returned, or stopped by an exception. */
  datatype Stop = Suspended | Returned | Threw(error: Error)

  /** The values produced, in order, and how the body stopped. */
  datatype Run = Run(produced: seq<Yielded>, stop: Stop)

  /** The generator's `current()`: the first value it yielded; the exception,
      if it threw before yielding; null if it returned without yielding. */
  function Current(run: Run): Result<Yielded> {
    if run.produced != [] then Ok(run.produced[0])
    else if run.stop.Threw? then Err(run.stop.error)
    else Ok(Null)
  }

  /** Where the body stops after producing `produced` when the demand is met
      exactly there, or has to go on. */
  function Pause(produced: seq<Yielded>, demand: nat): Stop {
    if |produced| == demand then Suspended else Returned
  }

  /** The loop over the chunks of the response, from chunk `i` on, with
      `produced` produced so far and the client in state `s`. */
  function Scan(chunks: seq<string>, i: nat, produced: seq<Yielded>, s: State, demand: nat): (Run, State)
    requires i <= |chunks| && |produced| < demand
    decreases |chunks| - i
  {
    if i == |chunks| then
      (Run(produced, Returned), s)
    else
      var line := ResponseLine(chunks[i]);
      match Classify(line)
      case EndMarker =>
        (Run(produced + [Null], Pause(produced + [Null], demand)), s)
      case ClientErrorLine =>
        var (extra, s') := ReadStep(s, Some(ErrorDetailLength));
        (Run(produced, Threw(ClientError(line + Detail(extra)))), s')
      case ServerErrorLine =>
        var (extra, s') := ReadStep(s, Some(ErrorDetailLength));
        (Run(produced, Threw(ServerError(line + Detail(extra)))), s')
      case ErrorLine =>
        (Run(produced, Threw(CommandFailed)), s)
      case Payload =>
        var more := produced + [Line(line)];
        if |more| == demand then (Run(more, Suspended), s)
        else Scan(chunks, i + 1, more, s, demand)
  }

  /** The generator `command($command, $noWait)` asked for `demand` values. */
  function CommandSpec(s: State, command: string, noWait: bool, demand: nat): (Run, State)
  {
    if demand == 0 then (Run([], Suspended), s)
    else
      var (connected, s1) := ConnectStep(s);
      if !connected then (Run([], Threw(ConnectionFailed)), s1)
      else
        var (written, s2) := WriteStep(s1, Frame(command));
        if written.None? then (Run([], Threw(WriteFailed)), s2)
        else if noWait then (Run([Written(written.value)], Pause([Written(written.value)], demand)), s2)
        else
          var (chunks, s3) := ReadStep(s2, None);
          Scan(chunks, 0, [], s3, demand)
  }

  /** The length field of a `VALUE` header: its fourth space-separated
      field, none when there are fewer than four. */
  function LengthField(header: string): Option<string> {
    var fields := Explode(header);
    if |fields| < 4 then None else Some(fields[3])
  }

  /** The length a `get` reply header announces: none when the header is
      falsy or not a `VALUE` header, or when the length field of the trimmed
      header is missing or falsy; otherwise the `(int)` cast of that field. */
  function DataLength(header: string): Option<int> {
    if Falsy(header) || !StartsWith(header, "VALUE ") then None
    else
      var field := LengthField(Trim(header));
      if field.None? || Falsy(field.value) then None
      else Some(LeadingInt(field.value))
  }

  /** What `get` makes of the data block read: its trimmed first chunk, null
      when that is falsy; no chunk at all leaves `trim` without a string. */
  function DataValue(chunks: seq<string>): Result<Option<string>> {
    if chunks == [] then Err(PayloadMissing)
    else
      var data := Trim(chunks[0]);
      Ok(if Falsy(data) then None else Some(data))
  }

  /** `get($key)` */
  function GetSpec(s: State, key: string): (Result<Option<string>>, State) {
    match ValidateKey(key)
    case Err(e) => (Err(e), s)
    case Ok(_) =>
      var (run, s1) := CommandSpec(s, GetCommand(key), false, 1);
      match Current(run)
      case Err(e) => (Err(e), s1)
      case Ok(Line(header)) =>
        (match DataLength(header)
         case None => (Ok(None), s1)
         case Some(n) =>
           var (chunks, s2) := ReadStep(s1, Some(n));
           (DataValue(chunks), s2))
      case Ok(_) => (Ok(None), s1)
  }

  /** What `set` makes of the current value of its command: only `STORED`
      is success. */
  function StoreReply(current: Result<Yielded>): Result<()> {
    match current
    case Err(e) => Err(e)
    case Ok(Line(line)) => if line == "STORED" then Ok(()) else Err(NotStored(line))
    case Ok(_) => Err(NotStored(""))
  }

  /** `set($key, $data, $ttl)`; `ttl` None stands for an omitted time to live. */
  function SetSpec(s: State, key: string, ttl: Option<int>, data: string): (Result<()>, State) {
    match ValidateKey(key)
    case Err(e) => (Err(e), s)
    case Ok(_) =>
      var t := if ttl.None? then DefaultTtl else ttl.value;
      var (run, s1) := CommandSpec(s, SetCommand(key, t, data), false, 1);
      (StoreReply(Current(run)), s1)
  }

  /** `delete($key)` */
  function DeleteSpec(s: State, key: string): (Result<()>, State) {
    match ValidateKey(key)
    case Err(e) => (Err(e), s)
    case Ok(_) =>
      var (run, s1) := CommandSpec(s, DeleteCommand(key), true, 1);
      match Current(run)
      case Err(e) => (Err(e), s1)
      case Ok(_) => (Ok(()), s1)
  }

  /** The facade over one client. */
  class Memcached {
    const client: ScriptedClient

    constructor (client: ScriptedClient)
      ensures this.client == client
    {
      this.client := client;
    }

    /** `__destruct`: closes the client. */
    method Destruct()
      modifies client
      ensures client.Observed() == CloseStep(old(client.Observed()))
    {
      client.Close();
    }

    /** The generator `command($command, $noWait)`, run until it has produced
        `demand` values or stopped. */
    method Command(command: string, noWait: bool, demand: nat) returns (run: Run)
      modifies client
      ensures (run, client.Observed()) == CommandSpec(old(client.Observed()), command, noWait, demand)
    {
      if demand == 0 {
        return Run([], Suspended);
      }
      var connected := client.Connect();
      if !connected {
        return Run([], Threw(ConnectionFailed));
      }
      var written := client.Write(Frame(command));
      if written.None? {
        return Run([], Threw(WriteFailed));
      }
      if noWait {
        var produced := [Written(written.value)];
        return Run(produced, Pause(produced, demand));
      }
      var chunks := client.Read(None);
      ghost var afterRead := client.Observed();
      var produced: seq<Yielded> := [];
      var i := 0;
      while i < |chunks|
        invariant i <= |chunks| && |produced| < demand
        invariant client.Observed() == afterRead
        invariant Scan(chunks, 0, [], afterRead, demand) == Scan(chunks, i, produced, afterRead, demand)
        decreases |chunks| - i
      {
        var line := ResponseLine(chunks[i]);
        var kind := Classify(line);
        if kind == EndMarker {
          produced := produced + [Null];
          return Run(produced, Pause(produced, demand));
        }
        if kind == ClientErrorLine {
          var extra := client.Read(Some(ErrorDetailLength));
          return Run(produced, Threw(ClientError(line + Detail(extra))));
        }
        if kind == ServerErrorLine {
          var extra := client.Read(Some(ErrorDetailLength));
          return Run(produced, Threw(ServerError(line + Detail(extra))));
        }
        if kind == ErrorLine {
          return Run(produced, Threw(CommandFailed));
        }
        produced := produced + [Line(line)];
        if |produced| == demand {
          return Run(produced, Suspended);
        }
        i := i + 1;
      }
      return Run(produced, Returned);
    }

    /** `get($key)`: the stored value, or None on a miss. */
    method Get(key: string) returns (r: Result<Option<string>>)
      modifies client
      ensures (r, client.Observed()) == GetSpec(old(client.Observed()), key)
    {
      var valid := ValidateKey(key);
      if valid.Err? {
        return Err(valid.error);
      }
      var run := Command(GetCommand(key), false, 1);
      var header := Current(run);
      if header.Err? {
        return Err(header.error);
      }
      if !header.value.Line? {
        return Ok(None);
      }
      var length := DataLength(header.value.text);
      if length.None? {
        return Ok(None);
      }
      var chunks := client.Read(Some(length.value));
      return DataValue(chunks);
    }

    /** `set($key, $data, $ttl)`: returns normally only on `STORED`. */
    method Set(key: string, data: string, ttl: Option<int>) returns (r: Result<()>)
      modifies client
      ensures (r, client.Observed()) == SetSpec(old(client.Observed()), key, ttl, data)
    {
      var valid := ValidateKey(key);
      if valid.Err? {
        return Err(valid.error);
      }
      var t := if ttl.None? then DefaultTtl else ttl.value;
      var run := Command(SetCommand(key, t, data), false, 1);
      var line := Current(run);
      if line.Err? {
        return Err(line.error);
      }
      if line.value != Line("STORED") {
        return Err(NotStored(if line.value.Line? then line.value.text else ""));
      }
      return Ok(());
    }

    /** `delete($key)`: sent with `noreply`; nothing is read. */
    method Delete(key: string) returns (r: Result<()>)
      modifies client
      ensures (r, client.Observed()) == DeleteSpec(old(client.Observed()), key)
    {
      var valid := ValidateKey(key);
      if valid.Err? {
        return Err(valid.error);
      }
      var run := Command(DeleteCommand(key), true, 1);
      var current := Current(run);
      if current.Err? {
        return Err(current.error);
      }
      return Ok(());
    }
  }
}
