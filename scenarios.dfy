/**
 * The unit-test scenarios of the facade, replayed on the model: a fresh
 * scripted client that connects and writes without failing, whose reads hand
 * out the chunks each scenario prepares.
 */
module Scenarios {
  import opened PhpStrings
  import opened Protocol
  import opened Transport
  import opened Memcached
  import opened CommandProperties
  import opened FacadeProperties

  function Fresh(script: seq<seq<string>>): State {
    State([], script, false, false)
  }

  /** A clean line followed by the terminator reads back as itself. */
  lemma LineOf(line: string)
    requires line != [] && !IsTrimChar(line[0]) && !IsTrimChar(line[|line| - 1])
    ensures ResponseLine(line + "\r\n") == line
  {
    assert (line + "\r\n")[|line|] == '\r';
    TrimDropsCrlf(line);
  }

  /** The first line a client scripted to answer `line + "\r\n"` first reads. */
  lemma FirstLineOf(s: State, line: string)
    requires s.script != [] && s.script[0] == [line + "\r\n"]
    requires line != [] && !IsTrimChar(line[0]) && !IsTrimChar(line[|line| - 1])
    ensures FirstLine(s) == Some(line)
  {
    assert (line + "\r\n")[|line|] == '\r';
    LineOf(line);
  }

  /** A line whose first character starts none of the control lines. */
  lemma NotControl(line: string)
    requires line != [] && line[0] != 'E' && line[0] != 'C' && line[0] != 'S'
    ensures !IsControlLine(line)
  {
  }

  lemma KeyIsValid()
    ensures ValidKey("key")
  {
  }

  /** `get` of a missing key: the reply is `END`. */
  lemma GetMissingKey()
    ensures GetSpec(Fresh([["END\r\n"]]), "key").0 == Ok(None)
  {
    var s := Fresh([["END\r\n"]]);
    KeyIsValid();
    assert "END"[0] == 'E' && "END"[2] == 'D';
    assert "END" + "\r\n" == "END\r\n";
    FirstLineOf(s, "END");
    GetMiss(s, "key");
  }

  /** `get` of an existing key: `VALUE key 0 5`, then the data block. */
  lemma GetExistingKey()
    ensures GetSpec(Fresh([["VALUE key 0 5\r\n"], ["value\r\n", "END\r\n"]]), "key").0 == Ok(Some("value"))
  {
    var s := Fresh([["VALUE key 0 5\r\n"], ["value\r\n", "END\r\n"]]);
    KeyIsValid();
    assert FormatNat(|"value"|) == "5";
    assert ValueHeader("key", "value") + "\r\n" == "VALUE key 0 5\r\n";
    assert "value"[0] == 'v' && "value"[4] == 'e';
    assert "value" + "\r\n" == "value\r\n";
    GetAfterSet(s, "key", "value");
  }

  /** `get` whose header announces zero bytes answers null without reading. */
  lemma GetZeroBytes()
    ensures GetSpec(Fresh([["VALUE key 0 0\r\n"], ["END\r\n"]]), "key").0 == Ok(None)
  {
    var s := Fresh([["VALUE key 0 0\r\n"], ["END\r\n"]]);
    KeyIsValid();
    var line := ValueHeader("key", "");
    assert FormatNat(|""|) == "0";
    assert line + "\r\n" == "VALUE key 0 0\r\n";
    ValueHeaderFields("key", "");
    ValueHeaderLine("key", "");
    assert FirstLine(s) == Some(line);
    assert line[0] == 'V';
    NotControl(line);
    GetMiss(s, "key");
  }

  /** `get` whose first line is not a `VALUE` header answers null. */
  lemma GetInvalidHeader()
    ensures GetSpec(Fresh([["invalid header\r\n"], ["END\r\n"]]), "key").0 == Ok(None)
  {
    var s := Fresh([["invalid header\r\n"], ["END\r\n"]]);
    var line := "invalid header";
    assert line + "\r\n" == "invalid header\r\n";
    KeyIsValid();
    assert line[0] == 'i' && line[13] == 'r';
    FirstLineOf(s, line);
    NotControl(line);
    assert !StartsWith(line, "VALUE ") by {
      assert line[..6][0] == 'i';
    }
    GetMiss(s, "key");
  }

  /** `set` answered `STORED` returns normally. */
  lemma SetStoresData()
    ensures SetSpec(Fresh([["STORED\r\n"]]), "key", None, "value").0 == Ok(())
  {
    var s := Fresh([["STORED\r\n"]]);
    KeyIsValid();
    assert "STORED"[0] == 'S' && "STORED"[5] == 'D';
    assert "STORED" + "\r\n" == "STORED\r\n";
    FirstLineOf(s, "STORED");
    SetStoredIff(s, "key", None, "value");
  }

  /** `set` answered `NOT_STORED` fails. */
  lemma SetNotStored()
    ensures SetSpec(Fresh([["NOT_STORED\r\n"]]), "key", None, "value").0 == Err(NotStored("NOT_STORED"))
  {
    var s := Fresh([["NOT_STORED\r\n"]]);
    var line := "NOT_STORED";
    assert line + "\r\n" == "NOT_STORED\r\n";
    KeyIsValid();
    assert line[0] == 'N' && line[9] == 'D';
    FirstLineOf(s, line);
    SetStoredIff(s, "key", None, "value");
  }

  /** `delete` writes its command and returns normally. */
  lemma DeleteRemovesKey()
    ensures DeleteSpec(Fresh([]), "key") == (Ok(()), Fresh([]).(log := [Connect, Write("delete key noreply\r\n")]))
  {
    KeyIsValid();
    DeleteWire(Fresh([]), "key");
    assert "delete " + "key" + " noreply\r\n" == "delete key noreply\r\n";
    assert [] + [Connect, Write("delete key noreply\r\n")] == [Connect, Write("delete key noreply\r\n")];
  }

  /** A key of 251 characters, or one holding a line feed, is rejected. */
  lemma RejectedKeys(s: State)
    ensures GetSpec(s, seq(251, _ => 'a')) == (Err(InvalidArgument), s)
    ensures GetSpec(s, "key\n") == (Err(InvalidArgument), s)
  {
    assert IsForbiddenKeyChar("key\n"[3]);
    InvalidKeyNoIo(s, seq(251, _ => 'a'), None, "");
    InvalidKeyNoIo(s, "key\n", None, "");
  }

  /** The three error lines, answered to `set`. */
  lemma SetClientError()
    ensures SetSpec(Fresh([["CLIENT_ERROR test\r\n"]]), "key", None, "value").0 == Err(ClientError("CLIENT_ERROR test"))
  {
    var s := Fresh([["CLIENT_ERROR test\r\n"]]);
    var line := "CLIENT_ERROR test";
    assert line + "\r\n" == "CLIENT_ERROR test\r\n";
    KeyIsValid();
    assert line[0] == 'C' && line[16] == 't';
    FirstLineOf(s, line);
    assert line[..13] == "CLIENT_ERROR ";
    assert line + Detail(SecondRead(s)) == line;
    ErrorLinesPropagate(s, "key", None, "value");
  }

  lemma SetServerError()
    ensures SetSpec(Fresh([["SERVER_ERROR test\r\n"]]), "key", None, "value").0 == Err(ServerError("SERVER_ERROR test"))
  {
    var s := Fresh([["SERVER_ERROR test\r\n"]]);
    var line := "SERVER_ERROR test";
    assert line + "\r\n" == "SERVER_ERROR test\r\n";
    KeyIsValid();
    assert line[0] == 'S' && line[16] == 't';
    FirstLineOf(s, line);
    assert line[..13] == "SERVER_ERROR ";
    assert line + Detail(SecondRead(s)) == line;
    ErrorLinesPropagate(s, "key", None, "value");
  }

  lemma SetError()
    ensures SetSpec(Fresh([["ERROR\r\n"]]), "key", None, "value").0 == Err(CommandFailed)
  {
    var s := Fresh([["ERROR\r\n"]]);
    KeyIsValid();
    assert "ERROR"[0] == 'E' && "ERROR"[4] == 'R';
    assert "ERROR" + "\r\n" == "ERROR\r\n";
    FirstLineOf(s, "ERROR");
    ErrorLinesPropagate(s, "key", None, "value");
  }

  /** A facade that served nothing closes its client once on destruction. */
  lemma DestructorClosesConnection(s: State)
    ensures CloseCount(Lifetime(s, []).log) == CloseCount(s.log) + 1
  {
    ClosedExactlyOnce(s, []);
  }
}
