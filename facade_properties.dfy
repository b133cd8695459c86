/**
 * What `get`, `set`, `delete` and the destructor promise, proved about the
 * functions the facade's methods are tied to: validation before any I/O, the
 * exact bytes each operation writes, how the first reply line decides `set`
 * and `get`, the `get` round trip of what `set` wrote, and that the client is
 * closed exactly once per facade.
 */
module FacadeProperties {
  import opened PhpStrings
  import opened Protocol
  import opened Transport
  import opened Memcached
  import opened CommandProperties

  // ---------------------------------------------------------------- keys

  /** A rejected key leaves the client untouched: no connect, no write, no
      read, for every operation. */
  lemma InvalidKeyNoIo(s: State, key: string, ttl: Option<int>, data: string)
    requires !ValidKey(key)
    ensures GetSpec(s, key) == (Err(InvalidArgument), s)
    ensures SetSpec(s, key, ttl, data) == (Err(InvalidArgument), s)
    ensures DeleteSpec(s, key) == (Err(InvalidArgument), s)
  {
  }

  /** After its command, `get` reads at most once more: the data block. */
  lemma GetEnds(s: State, key: string)
    requires ValidKey(key)
    ensures var s1 := CommandSpec(s, GetCommand(key), false, 1).1;
            GetSpec(s, key).1 == s1 || exists n :: GetSpec(s, key).1 == ReadStep(s1, Some(n)).1
  {
    var (run, s1) := CommandSpec(s, GetCommand(key), false, 1);
    match Current(run) {
      case Ok(Line(header)) =>
        match DataLength(header) {
          case Some(n) =>
            assert GetSpec(s, key).1 == ReadStep(s1, Some(n)).1;
          case None =>
        }
      case _ =>
    }
  }

  /** An accepted key always reaches the transport: each operation starts
      by connecting. */
  lemma ValidKeyConnects(s: State, key: string, ttl: Option<int>, data: string)
    requires ValidKey(key)
    ensures Connects(s.log, GetSpec(s, key).1.log)
    ensures Connects(s.log, SetSpec(s, key, ttl, data).1.log)
    ensures Connects(s.log, DeleteSpec(s, key).1.log)
  {
    var t := if ttl.None? then DefaultTtl else ttl.value;
    CommandConnects(s, GetCommand(key), false);
    CommandConnects(s, SetCommand(key, t, data), false);
    CommandConnects(s, DeleteCommand(key), true);
    var s1 := CommandSpec(s, GetCommand(key), false, 1).1;
    GetEnds(s, key);
    if GetSpec(s, key).1 != s1 {
      var n :| GetSpec(s, key).1 == ReadStep(s1, Some(n)).1;
      ConnectsAppend(s.log, s1.log, Read(Some(n)));
    }
  }

  // -------------------------------------------------------- what is written

  /** The text of a `set` command: header, line break, data. */
  lemma SetCommandText(key: string, ttl: int, data: string)
    ensures SetCommand(key, ttl, data) == "set " + key + " " + "0" + " " + FormatInt(ttl) + " " + FormatNat(|data|) + "\r\n" + data
  {
    assert FormatInt(Flags) == "0";
  }

  lemma Join4(a: string, b: string, c: string, d: string)
    ensures Join([a, b, c, d]) == a + " " + b + " " + c + " " + d
  {
    assert Join([a]) == a;
    assert [a] + [b] == [a, b];
    JoinSnoc([a], b);
    assert [a, b] + [c] == [a, b, c];
    JoinSnoc([a, b], c);
    assert [a, b, c] + [d] == [a, b, c, d];
    JoinSnoc([a, b, c], d);
  }

  lemma Join5(a: string, b: string, c: string, d: string, e: string)
    ensures Join([a, b, c, d, e]) == a + " " + b + " " + c + " " + d + " " + e
  {
    Join4(a, b, c, d);
    assert [a, b, c, d] + [e] == [a, b, c, d, e];
    JoinSnoc([a, b, c, d], e);
  }

  /** The `set` header splits into exactly its five fields, and the length
      field reads back as the number of characters of the data. */
  lemma SetHeaderFields(key: string, ttl: int, data: string)
    requires ValidKey(key)
    ensures Explode(SetHeader(key, ttl, data)) == ["set", key, "0", FormatInt(ttl), FormatNat(|data|)]
    requires |data| <= PhpIntMax
    ensures LeadingInt(FormatNat(|data|)) == |data|
  {
    var fields := SetHeaderJoin(key, ttl, data);
    ExplodeJoin(fields);
    LeadingIntOfFormat(|data|);
  }

  /** The `set` header is `implode(' ')` of its fields, none of which holds
      a space. */
  lemma SetHeaderJoin(key: string, ttl: int, data: string) returns (fields: seq<string>)
    requires ValidKey(key)
    ensures fields == ["set", key, "0", FormatInt(ttl), FormatNat(|data|)]
    ensures forall k :: 0 <= k < |fields| ==> ' ' !in fields[k]
    ensures Join(fields) == SetHeader(key, ttl, data)
  {
    fields := ["set", key, "0", FormatInt(ttl), FormatNat(|data|)];
    NoBreakInKey(key);
    FormatIntHasNoBreak(ttl);
    FormatIntHasNoBreak(|data|);
    assert FormatInt(|data|) == FormatNat(|data|);
    SpaceFree5("set", key, "0", FormatInt(ttl), FormatNat(|data|));
    Join5("set", key, "0", FormatInt(ttl), FormatNat(|data|));
    assert FormatInt(Flags) == "0";
    assert "set" + " " == "set ";
  }

  lemma SpaceFree4(a: string, b: string, c: string, d: string)
    requires ' ' !in a && ' ' !in b && ' ' !in c && ' ' !in d
    ensures forall k :: 0 <= k < 4 ==> ' ' !in [a, b, c, d][k]
  {
  }

  lemma SpaceFree5(a: string, b: string, c: string, d: string, e: string)
    requires ' ' !in a && ' ' !in b && ' ' !in c && ' ' !in d && ' ' !in e
    ensures forall k :: 0 <= k < 5 ==> ' ' !in [a, b, c, d, e][k]
  {
  }

  /** `delete` writes exactly `delete <key> noreply\r\n` after `connect`,
      reads nothing and returns normally. */
  lemma DeleteWire(s: State, key: string)
    requires ValidKey(key) && Ready(s)
    ensures DeleteSpec(s, key) == (Ok(()), s.(log := s.log + [Connect, Write("delete " + key + " noreply\r\n")]))
  {
    NoWaitWritesOnly(s, DeleteCommand(key), 1);
    assert DeleteCommand(key) + "\r\n" == "delete " + key + " noreply\r\n";
  }

  /** `set` connects, writes its command and a line break, and reads the
      reply; it reads once more only for the detail of an error line. An
      omitted time to live is 3600. */
  lemma SetWire(s: State, key: string, ttl: Option<int>, data: string)
    requires ValidKey(key) && Ready(s)
    ensures var command := SetCommand(key, if ttl.None? then 3600 else ttl.value, data);
            var calls := s.log + [Connect, Write(command + "\r\n"), Read(None)];
            SetSpec(s, key, ttl, data).1.log in {calls, calls + [Read(Some(1024))]}
    ensures var command := SetCommand(key, if ttl.None? then 3600 else ttl.value, data);
            SetSpec(s, key, ttl, data).1 == ReadStep(Awaiting(s, command), Some(1024)).1
            <==> FirstLine(s).Some? && (StartsWith(FirstLine(s).value, "CLIENT_ERROR ") || StartsWith(FirstLine(s).value, "SERVER_ERROR "))
  {
    var command := SetCommand(key, if ttl.None? then DefaultTtl else ttl.value, data);
    CommandEnds(s, command, false);
    AwaitingLog(s, command);
    CommandReads(s, command, 1);
    var after := Awaiting(s, command);
    assert |ReadStep(after, Some(1024)).1.log| == |after.log| + 1;
    if FirstLine(s).Some? {
      ClassifyCases(FirstLine(s).value);
    }
  }

  /** Leaving out the time to live is the same as passing 3600. */
  lemma SetDefaultTtl(s: State, key: string, data: string)
    ensures SetSpec(s, key, None, data) == SetSpec(s, key, Some(3600), data)
  {
  }

  // ----------------------------------------------------------- set replies

  /** `set` returns normally exactly when the first line is `STORED`; any
      other plain line is a store failure carrying that line, and null (`END`
      or no line at all) a store failure carrying nothing. */
  lemma SetStoredIff(s: State, key: string, ttl: Option<int>, data: string)
    requires ValidKey(key) && Ready(s)
    ensures SetSpec(s, key, ttl, data).0 == Ok(()) <==> FirstLine(s) == Some("STORED")
    ensures FirstLine(s).None? || FirstLine(s) == Some("END") ==> SetSpec(s, key, ttl, data).0 == Err(NotStored(""))
    ensures (FirstLine(s).Some? && !IsControlLine(FirstLine(s).value) && FirstLine(s).value != "STORED")
            ==> SetSpec(s, key, ttl, data).0 == Err(NotStored(FirstLine(s).value))
  {
    var command := SetCommand(key, if ttl.None? then DefaultTtl else ttl.value, data);
    if FirstLine(s).None? || FirstLine(s) == Some("END") {
      EndYieldsNull(s, command);
    } else if !IsControlLine(FirstLine(s).value) {
      OtherLinesYielded(s, command);
    } else {
      ControlLinesFail(s, command);
    }
  }

  /** The error lines surface from `get` and `set` alike. */
  lemma ErrorLinesPropagate(s: State, key: string, ttl: Option<int>, data: string)
    requires ValidKey(key) && Ready(s) && FirstLine(s).Some?
    ensures var e := ClientError(FirstLine(s).value + Detail(SecondRead(s)));
            StartsWith(FirstLine(s).value, "CLIENT_ERROR ") ==> (GetSpec(s, key).0 == Err(e) && SetSpec(s, key, ttl, data).0 == Err(e))
    ensures var e := ServerError(FirstLine(s).value + Detail(SecondRead(s)));
            StartsWith(FirstLine(s).value, "SERVER_ERROR ") ==> (GetSpec(s, key).0 == Err(e) && SetSpec(s, key, ttl, data).0 == Err(e))
    ensures FirstLine(s) == Some("ERROR") ==> (GetSpec(s, key).0 == Err(CommandFailed) && SetSpec(s, key, ttl, data).0 == Err(CommandFailed))
  {
    var command := SetCommand(key, if ttl.None? then DefaultTtl else ttl.value, data);
    var line := FirstLine(s).value;
    if StartsWith(line, "CLIENT_ERROR ") {
      ClientErrorRaises(s, GetCommand(key));
      ClientErrorRaises(s, command);
    } else if StartsWith(line, "SERVER_ERROR ") {
      ServerErrorRaises(s, GetCommand(key));
      ServerErrorRaises(s, command);
    } else if line == "ERROR" {
      ErrorRaises(s, GetCommand(key));
      ErrorRaises(s, command);
    }
  }

  // ----------------------------------------------------------- get replies

  /** `get` answers null, without reading a data block, when there is no
      line, the line is `END` or falsy, it is not a `VALUE` header, or the
      header's length field is missing, empty or `0`. */
  lemma GetMiss(s: State, key: string)
    requires ValidKey(key) && Ready(s)
    requires || FirstLine(s).None?
             || FirstLine(s) == Some("END")
             || (&& !IsControlLine(FirstLine(s).value)
                 && (|| Falsy(FirstLine(s).value)
                     || !StartsWith(FirstLine(s).value, "VALUE ")
                     || LengthField(FirstLine(s).value).None?
                     || Falsy(LengthField(FirstLine(s).value).value)))
    ensures GetSpec(s, key) == (Ok(None), Awaiting(s, GetCommand(key)))
  {
    if FirstLine(s).None? || FirstLine(s) == Some("END") {
      EndYieldsNull(s, GetCommand(key));
    } else {
      OtherLinesYielded(s, GetCommand(key));
      var chunk := FirstRead(s)[0];
      TrimIdempotent(if Falsy(chunk) then "" else chunk);
    }
  }

  /** A `VALUE` header with a truthy length field makes exactly one more call,
      `read(n)` with n the `(int)` cast of that field, and `get` returns the
      trimmed first chunk of that read, or null when it is falsy. */
  lemma GetHit(s: State, key: string)
    requires ValidKey(key) && Ready(s) && FirstLine(s).Some?
    requires StartsWith(FirstLine(s).value, "VALUE ")
    requires LengthField(FirstLine(s).value).Some? && !Falsy(LengthField(FirstLine(s).value).value)
    ensures GetSpec(s, key).1 == ReadStep(Awaiting(s, GetCommand(key)), Some(LeadingInt(LengthField(FirstLine(s).value).value))).1
    ensures var block := SecondRead(s);
            GetSpec(s, key).0 == if block == [] then Err(PayloadMissing)
                                 else if Falsy(Trim(block[0])) then Ok(None)
                                 else Ok(Some(Trim(block[0])))
  {
    var header := FirstLine(s).value;
    assert header[0] == 'V';
    ClassifyCases(header);
    OtherLinesYielded(s, GetCommand(key));
    var chunk := FirstRead(s)[0];
    TrimIdempotent(if Falsy(chunk) then "" else chunk);
  }

  /** The header `get` receives for a value `set` stored from `data`. */
  function ValueHeader(key: string, data: string): string {
    "VALUE " + key + " 0 " + FormatNat(|data|)
  }

  /** The round trip: when the server answers `get` with the `VALUE` header
      carrying the length field `set` wrote for `data`, then the data block,
      `get` reads exactly that many characters and gives back `data`, unless
      `data` is falsy. (Values with leading or trailing trim characters do not
      survive; see `TrimDropsCrlf`.) */
  lemma GetAfterSet(s: State, key: string, data: string)
    requires ValidKey(key) && Ready(s) && CleanEdges(data) && |data| <= PhpIntMax
    requires |s.script| >= 2
    requires s.script[0] == [ValueHeader(key, data) + "\r\n"]
    requires s.script[1] == [data + "\r\n", "END\r\n"]
    ensures GetSpec(s, key).0 == if Falsy(data) then Ok(None) else Ok(Some(data))
    ensures |data| > 0 ==> GetSpec(s, key).1.log == Awaiting(s, GetCommand(key)).log + [Read(Some(|data|))]
  {
    var header := ValueHeader(key, data);
    ValueHeaderLine(key, data);
    assert FirstRead(s) == [header + "\r\n"];
    assert FirstLine(s) == Some(header);
    ValueHeaderFields(key, data);
    LeadingIntOfFormat(|data|);
    FormatNatFalsy(|data|);
    TrimDropsCrlf(data);
    assert header[0] == 'V';
    if |data| == 0 {
      GetMiss(s, key);
    } else {
      GetHit(s, key);
    }
  }

  /** The header line survives the trimming of the response loop. */
  lemma ValueHeaderLine(key: string, data: string)
    ensures ResponseLine(ValueHeader(key, data) + "\r\n") == ValueHeader(key, data)
  {
    var len := FormatNat(|data|);
    var header := ValueHeader(key, data);
    assert CleanEdges(header) by {
      assert header[|header| - 1] == len[|len| - 1];
      assert IsDigit(len[|len| - 1]);
    }
    TrimDropsCrlf(header);
    assert !Falsy(header + "\r\n");
  }

  /** The header is a `VALUE` header whose length field is the printed length
      of the data. */
  lemma ValueHeaderFields(key: string, data: string)
    requires ValidKey(key)
    ensures StartsWith(ValueHeader(key, data), "VALUE ")
    ensures LengthField(ValueHeader(key, data)) == Some(FormatNat(|data|))
  {
    ValueHeaderPrefix(key, data);
    var fields := ValueHeaderJoin(key, data);
    ExplodeJoin(fields);
  }

  lemma ValueHeaderPrefix(key: string, data: string)
    ensures StartsWith(ValueHeader(key, data), "VALUE ")
  {
    var rest := key + " 0 " + FormatNat(|data|);
    assert ValueHeader(key, data) == "VALUE " + rest;
    assert ("VALUE " + rest)[..6] == "VALUE ";
  }

  lemma ValueHeaderJoin(key: string, data: string) returns (fields: seq<string>)
    requires ValidKey(key)
    ensures fields == ["VALUE", key, "0", FormatNat(|data|)]
    ensures forall k :: 0 <= k < |fields| ==> ' ' !in fields[k]
    ensures Join(fields) == ValueHeader(key, data)
  {
    var len := FormatNat(|data|);
    fields := ["VALUE", key, "0", len];
    NoBreakInKey(key);
    FormatIntHasNoBreak(|data|);
    assert FormatInt(|data|) == len;
    SpaceFree4("VALUE", key, "0", len);
    Join4("VALUE", key, "0", len);
    assert "VALUE" + " " == "VALUE ";
    assert "VALUE " + key + " " + "0" + " " == "VALUE " + key + " 0 ";
  }

  // ------------------------------------------------------------- lifetime

  /** One call on the facade. */
  datatype Op = GetOp(key: string) | SetOp(key: string, ttl: Option<int>, data: string) | DeleteOp(key: string)

  function Apply(s: State, op: Op): State {
    match op
    case GetOp(key) => GetSpec(s, key).1
    case SetOp(key, ttl, data) => SetSpec(s, key, ttl, data).1
    case DeleteOp(key) => DeleteSpec(s, key).1
  }

  /** The client after a facade made on it has served `ops`, whatever each
      returned or raised, and has then been destroyed. */
  function Lifetime(s: State, ops: seq<Op>): State
    decreases |ops|
  {
    if ops == [] then CloseStep(s) else Lifetime(Apply(s, ops[0]), ops[1..])
  }

  lemma CloseCountAppend(log: seq<Call>, c: Call)
    ensures CloseCount(log + [c]) == CloseCount(log) + (if c == Close then 1 else 0)
  {
    assert (log + [c])[..|log|] == log;
  }

  /** No step but `close` changes the number of `close` calls. */
  lemma StepsDoNotClose(s: State, data: string, length: Option<int>)
    ensures CloseCount(ConnectStep(s).1.log) == CloseCount(s.log)
    ensures CloseCount(WriteStep(s, data).1.log) == CloseCount(s.log)
    ensures CloseCount(ReadStep(s, length).1.log) == CloseCount(s.log)
  {
    assert ConnectStep(s).1.log == s.log + [Connect];
    assert WriteStep(s, data).1.log == s.log + [Write(data)];
    assert ReadStep(s, length).1.log == s.log + [Read(length)];
    CloseCountAppend(s.log, Connect);
    CloseCountAppend(s.log, Write(data));
    CloseCountAppend(s.log, Read(length));
  }

  lemma CommandDoesNotClose(s: State, command: string, noWait: bool)
    ensures CloseCount(CommandSpec(s, command, noWait, 1).1.log) == CloseCount(s.log)
  {
    CommandEnds(s, command, noWait);
    var connected := ConnectStep(s).1;
    var written := WriteStep(connected, Frame(command)).1;
    StepsDoNotClose(s, "", None);
    StepsDoNotClose(connected, Frame(command), None);
    StepsDoNotClose(written, "", None);
    StepsDoNotClose(Awaiting(s, command), "", Some(ErrorDetailLength));
  }

  /** No operation closes the client. */
  lemma OpsNeverClose(s: State, op: Op)
    ensures CloseCount(Apply(s, op).log) == CloseCount(s.log)
  {
    match op
    case GetOp(key) =>
      if ValidKey(key) {
        var s1 := CommandSpec(s, GetCommand(key), false, 1).1;
        CommandDoesNotClose(s, GetCommand(key), false);
        GetEnds(s, key);
        if GetSpec(s, key).1 != s1 {
          var n :| GetSpec(s, key).1 == ReadStep(s1, Some(n)).1;
          StepsDoNotClose(s1, "", Some(n));
        }
      }
    case SetOp(key, ttl, data) =>
      CommandDoesNotClose(s, SetCommand(key, if ttl.None? then DefaultTtl else ttl.value, data), false);
    case DeleteOp(key) =>
      CommandDoesNotClose(s, DeleteCommand(key), true);
  }

  /** Destroying the facade closes the client exactly once: the lifetime
      adds one `close` to the log, and it is the last call. */
  lemma {:induction false} ClosedExactlyOnce(s: State, ops: seq<Op>)
    ensures CloseCount(Lifetime(s, ops).log) == CloseCount(s.log) + 1
    ensures |Lifetime(s, ops).log| > 0 && Lifetime(s, ops).log[|Lifetime(s, ops).log| - 1] == Close
    decreases |ops|
  {
    if ops == [] {
      CloseCountAppend(s.log, Close);
    } else {
      OpsNeverClose(s, ops[0]);
      ClosedExactlyOnce(Apply(s, ops[0]), ops[1..]);
    }
  }
}
