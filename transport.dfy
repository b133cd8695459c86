/**
 * The transport the facade talks to, in the shape of the client interface:
 * `connect()`, `write(data): int`, `read(length = null): Generator` and
 * `close()`.
 *
 * The model is a scripted client, as a test double would be: it logs every
 * call it receives and answers each `read` with the next entry of a queue of
 * prepared read results, each a sequence of chunks (the values the returned
 * generator would yield). Whether `connect` and `write` fail is fixed when the
 * client is made.
 */
module Transport {

  /** One call received by the client. */
  datatype Call = Connect | Write(data: string) | Read(length: Option<int>) | Close

  datatype Option<T> = None | Some(value: T)

  /** The observable state of a scripted client. */
  datatype State = State(
    log: seq<Call>,              // every call received, oldest first
    script: seq<seq<string>>,    // the results of the reads still to come
    connectFails: bool,          // `connect` throws (a connection error)
    writeFails: bool             // `write` throws (a write error)
  )

  /** `connect()`: logged; succeeds unless the client is set to fail. */
  function ConnectStep(s: State): (bool, State) {
    (!s.connectFails, s.(log := s.log + [Connect]))
  }

  /** `write($data)`: logged; returns the number of characters written, or
      nothing when the write fails. */
  function WriteStep(s: State, data: string): (Option<int>, State) {
    (if s.writeFails then None else Some(|data|), s.(log := s.log + [Write(data)]))
  }

  /** `read($length)`: logged; hands out the next prepared result. Once the
      queue is exhausted every read yields nothing. */
  function ReadStep(s: State, length: Option<int>): (seq<string>, State) {
    if s.script == [] then
      ([], s.(log := s.log + [Read(length)]))
    else
      (s.script[0], s.(log := s.log + [Read(length)], script := s.script[1..]))
  }

  /** `close()`: logged. */
  function CloseStep(s: State): State {
    s.(log := s.log + [Close])
  }

  /** Number of `close()` calls in a log. */
  function CloseCount(log: seq<Call>): nat {
    if log == [] then 0 else CloseCount(log[..|log| - 1]) + (if log[|log| - 1] == Close then 1 else 0)
  }

  class ScriptedClient {
    var log: seq<Call>
    var script: seq<seq<string>>
    const connectFails: bool
    const writeFails: bool

    function Observed(): State
      reads this
    {
      State(log, script, connectFails, writeFails)
    }

    constructor (script: seq<seq<string>>, connectFails: bool, writeFails: bool)
      ensures Observed() == State([], script, connectFails, writeFails)
    {
      this.log := [];
      this.script := script;
      this.connectFails := connectFails;
      this.writeFails := writeFails;
    }

    method Connect() returns (ok: bool)
      modifies this
      ensures (ok, Observed()) == ConnectStep(old(Observed()))
    {
      log := log + [Call.Connect];
      ok := !connectFails;
    }

    method Write(data: string) returns (written: Option<int>)
      modifies this
      ensures (written, Observed()) == WriteStep(old(Observed()), data)
    {
      log := log + [Call.Write(data)];
      written := if writeFails then None else Some(|data|);
    }

    method Read(length: Option<int>) returns (chunks: seq<string>)
      modifies this
      ensures (chunks, Observed()) == ReadStep(old(Observed()), length)
    {
      log := log + [Call.Read(length)];
      if script == [] {
        chunks := [];
      } else {
        chunks := script[0];
        script := script[1..];
      }
    }

    method Close()
      modifies this
      ensures Observed() == CloseStep(old(Observed()))
    {
      log := log + [Call.Close];
    }
  }
}
