/**
 * The pure parts of the memcached text protocol as the facade speaks it:
 * the error kinds it raises, key validation, the command lines it sends and
 * the classification of one response line.
 */
module Protocol {
  import opened PhpStrings

  /** The exceptions the facade lets escape, by kind. */
  datatype Error =
    | InvalidArgument        // the key is too long or holds a forbidden character
    | ConnectionFailed       // `connect` failed
    | WriteFailed            // `write` failed
    | ClientError(line: string)  // a `CLIENT_ERROR ` line, with the extra detail read after it
    | ServerError(line: string)  // a `SERVER_ERROR ` line, with the extra detail read after it
    | CommandFailed          // a bare `ERROR` line
    | NotStored(reply: string)   // `set` saw something other than `STORED` ("" when nothing was yielded)
    | PayloadMissing         // `get` asked for the data block and the read yielded nothing

  datatype Result<T> = Ok(value: T) | Err(error: Error)

  /** The longest key the facade accepts, in characters. */
  const MaxKeyLength: nat := 250

  /** The time to live `set` uses when none is given, in seconds. */
  const DefaultTtl: int := 3600

  /** The flags field `set` always sends. */
  const Flags: int := 0

  /** The detail read after an error line asks for at most this many bytes. */
  const ErrorDetailLength: int := 1024

  const Crlf: string := "\r\n"

  /** The whitespace class `\s` of the key pattern: space, tab, line feed,
      vertical tab, form feed and carriage return. */
  predicate IsPatternSpace(c: char) {
    c == ' ' || c == '\t' || c == '\n' || c as int == 0x0B || c as int == 0x0C || c == '\r'
  }

  /** A character the key pattern rejects: a control character (0x00 to 0x1F),
      DEL (0x7F) or whitespace. */
  predicate IsForbiddenKeyChar(c: char) {
    c as int <= 0x1F || c as int == 0x7F || IsPatternSpace(c)
  }

  /** What a key must be: at most 250 characters, none of them forbidden. */
  predicate ValidKey(key: string) {
    |key| <= MaxKeyLength && forall k :: 0 <= k < |key| ==> !IsForbiddenKeyChar(key[k])
  }

  /** Whether the key pattern finds a match anywhere in `key`. */
  function HasForbiddenChar(key: string): (found: bool)
    ensures found <==> exists k :: 0 <= k < |key| && IsForbiddenKeyChar(key[k])
    decreases |key|
  {
    if key == [] then false
    else IsForbiddenKeyChar(key[0]) || HasForbiddenChar(key[1..])
  }

  /** Key validation as the facade does it: first the length, then the
      pattern. It passes exactly the valid keys. */
  function ValidateKey(key: string): (r: Result<()>)
    ensures r.Ok? <==> ValidKey(key)
    ensures r.Err? ==> r.error == InvalidArgument
  {
    if |key| > MaxKeyLength then Err(InvalidArgument)
    else if HasForbiddenChar(key) then Err(InvalidArgument)
    else Ok(())
  }

  /** `get <key>` */
  function GetCommand(key: string): string {
    "get " + key
  }

  /** The first line of a `set`: `set <key> <flags> <ttl> <length>`, where the
      length counts the characters of the data. */
  function SetHeader(key: string, ttl: int, data: string): string {
    "set " + key + " " + FormatInt(Flags) + " " + FormatInt(ttl) + " " + FormatInt(|data|)
  }

  /** `set <key> 0 <ttl> <length>\r\n<data>` */
  function SetCommand(key: string, ttl: int, data: string): string {
    SetHeader(key, ttl, data) + Crlf + data
  }

  /** `delete <key> noreply` */
  function DeleteCommand(key: string): string {
    "delete " + key + " noreply"
  }

  /** What goes on the wire for a command: the command and a line terminator. */
  function Frame(command: string): string {
    command + Crlf
  }

  /** The line a raw chunk of the response stands for: a falsy chunk counts as
      empty, and the result is trimmed. */
  function ResponseLine(chunk: string): string {
    Trim(if Falsy(chunk) then "" else chunk)
  }

  /** The kinds of response line, in the order the facade tests for them. */
  datatype LineKind = EndMarker | ClientErrorLine | ServerErrorLine | ErrorLine | Payload

  function Classify(line: string): LineKind {
    if line == "END" then EndMarker
    else if StartsWith(line, "CLIENT_ERROR ") then ClientErrorLine
    else if StartsWith(line, "SERVER_ERROR ") then ServerErrorLine
    else if line == "ERROR" then ErrorLine
    else Payload
  }

  /** A line that ends or fails a response rather than being yielded. */
  predicate IsControlLine(line: string) {
    line == "END" || StartsWith(line, "CLIENT_ERROR ") || StartsWith(line, "SERVER_ERROR ") || line == "ERROR"
  }

  /** The four tests exclude one another, so the order in which the facade
      makes them does not matter: each kind is exactly its own test. */
  lemma ClassifyCases(line: string)
    ensures Classify(line) == EndMarker <==> line == "END"
    ensures Classify(line) == ClientErrorLine <==> StartsWith(line, "CLIENT_ERROR ")
    ensures Classify(line) == ServerErrorLine <==> StartsWith(line, "SERVER_ERROR ")
    ensures Classify(line) == ErrorLine <==> line == "ERROR"
    ensures Classify(line) == Payload <==> !IsControlLine(line)
  {
    if StartsWith(line, "CLIENT_ERROR ") {
      assert line[0] == 'C' && |line| >= 13;
    }
    if StartsWith(line, "SERVER_ERROR ") {
      assert line[0] == 'S' && |line| >= 13;
    }
  }

  /** What an error line gets appended: the first chunk of one more read,
      unless there is none or it is falsy. */
  function Detail(chunks: seq<string>): string {
    if chunks != [] && !Falsy(chunks[0]) then chunks[0] else ""
  }
}
