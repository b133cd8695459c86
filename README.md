# A memcached text-protocol client, modelled in Dafny

This project models the `Memcached` facade of a small PHP memcached client
(`src/Memcached.php`). The facade sits over a transport with the shape of
`ClientInterface`: `connect()`, `write($data): int`,
`read($length = null): Generator` and `close()`. The model covers:

- key validation: at most 250 characters, and no control character, DEL or whitespace;
- the command lines `get <key>`, `set <key> 0 <ttl> <length>\r\n<data>` and
  `delete <key> noreply`, each written with a trailing `\r\n`;
- the response generator `command`. It connects and writes the command.
  Without waiting, it yields the count written. Otherwise it trims each chunk of
  one `read()` and classifies it:
  - `END` yields null and returns;
  - `CLIENT_ERROR ` and `SERVER_ERROR ` lines read the first chunk of `read(1024)` as detail, then raise;
  - a bare `ERROR` raises;
  - every other line is yielded;
- how `get`, `set` and `delete` interpret the first value of that generator,
  including PHP's truthiness (`""` and `"0"` are falsy);
- the destructor, which closes the client.

Files:

- `php_strings.dfy` (module `PhpStrings`): the PHP string primitives the facade
  relies on. These are truthiness, `trim`, the `strpos(..) === 0` prefix test,
  `explode(' ')`/`implode(' ')`, `sprintf('%d')` and the `(int)` cast of a
  length field. Lemmas state what each one computes.
- `transport.dfy` (module `Transport`): the transport as a scripted client, like
  the PHPUnit mock the unit tests use. The class `ScriptedClient` logs every
  call and hands each `read` the next entry of a queue of prepared results,
  each a sequence of chunks. Each of its methods is proved equal to a step
  function on the observable `State`.
- `protocol.dfy` (module `Protocol`): the error kinds, key validation, the
  command texts and the classification of one response line.
- `memcached.dfy` (module `Memcached`): the class `Memcached` with `Command`,
  `Get`, `Set`, `Delete` and `Destruct`. It also holds the functions of the
  client's old state that these methods are proved equal to: `CommandSpec`,
  `GetSpec`, `SetSpec` and `DeleteSpec`.
  - PHP generator laziness is explicit: `Command` runs the generator body until
    it has produced `demand` values or stopped.
  - `current()` is demand 1, and a generator nobody asks runs no code.
  - The method `Command` is the loop of the source, with its invariants.
- `command_properties.dfy` (module `CommandProperties`): what the generator
  promises. This covers laziness, failure ordering, the no-wait path,
  classification of the first line, the whole response loop, at most one
  extra read, and the shape of the command lines.
- `facade_properties.dfy` (module `FacadeProperties`): what `get`, `set`,
  `delete` and the destructor promise. This covers:
  - no I/O for a rejected key;
  - the exact bytes written;
  - the `set` success if-and-only-if;
  - the three ways `get` misses, and the hit;
  - the `get` round trip of what `set` wrote;
  - the client closed exactly once over a facade's lifetime.
- `scenarios.dfy` (module `Scenarios`): every unit test of
  `tests/Unit/MemcachedTest.php`, replayed as a lemma on a scripted client.

Errors are values: `Result<T>` is `Ok(value)` or `Err(error)`. The exception
classes become the constructors of `Error`, which are:

- `InvalidArgument`
- `ConnectionFailed`
- `WriteFailed`
- `ClientError(line)`
- `ServerError(line)`
- `CommandFailed`
- `NotStored(reply)`
- `PayloadMissing`

## Model

| member | source | states |
|---|---|---|
| PhpStrings.TrimLeftSpec | src/Memcached.php:129 | `ltrim` leaves a suffix that does not start with a trim character, and everything it dropped is a trim character |
| PhpStrings.TrimRightSpec | src/Memcached.php:129 | `rtrim` leaves a prefix that does not end with a trim character, and everything it dropped is a trim character |
| PhpStrings.TrimSpec | src/Memcached.php:129 | `trim` gives a contiguous factor of the input with clean edges; everything cut off on either side is one of `" \t\n\r\0\x0B"` |
| PhpStrings.TrimOfClean | src/Memcached.php:47 | a string with clean edges is left unchanged by `trim` |
| PhpStrings.TrimIdempotent | src/Memcached.php:47 | trimming twice is trimming once, so `get`'s second `trim` of the header changes nothing |
| PhpStrings.TrimDropsCrlf | src/Memcached.php:129 | for a string with clean edges, `trim` removes exactly the `\r\n` after it |
| PhpStrings.SpaceIndexSpec | src/Memcached.php:47 | the index found is the first space, and equals the length exactly when there is no space |
| PhpStrings.ExplodeSpec | src/Memcached.php:47 | `explode(' ')` gives at least one field, no field holds a space, and `implode(' ')` of the fields is the input |
| PhpStrings.ExplodeJoin | src/Memcached.php:47 | `explode(' ')` undoes `implode(' ')` of fields without spaces |
| PhpStrings.JoinSnoc | src/Memcached.php:74-81 | `implode(' ')` of one more field appends a space and that field |
| PhpStrings.FormatNat | src/Memcached.php:74-81 | `%d` of a non-negative number is a non-empty string of digits, starting with `0` only for zero |
| PhpStrings.DigitPrefix | src/Memcached.php:51 | the leading-digit count is a maximal run of digits |
| PhpStrings.DecimalOfFormat | src/Memcached.php:74-81 | the digits `%d` prints have the printed value |
| PhpStrings.LeadingIntOfFormat | src/Memcached.php:51 | the `(int)` cast of a printed number gives that number back, saturated at `PHP_INT_MAX` |
| PhpStrings.FormatNatFalsy | src/Memcached.php:48 | a printed length is falsy exactly when it is zero |
| Protocol.HasForbiddenChar | src/Memcached.php:106 | the pattern `[\x00-\x1F\x7F\s]` matches exactly when some character is forbidden |
| Protocol.ValidateKey | src/Memcached.php:101-109 | validation passes exactly the keys of at most 250 characters with no forbidden character, and otherwise fails with `InvalidArgument` |
| Protocol.ClassifyCases | src/Memcached.php:130-143 | each line kind holds exactly when its own test does, so the order of the tests does not matter; a line is yielded exactly when it is no control line |
| Transport.ScriptedClient.constructor | src/ClientInterface.php:11-28 | a new client has an empty log and the given script and failure flags |
| Transport.ScriptedClient.Connect | src/ClientInterface.php:13-17 | `connect` is logged and succeeds unless the client is set to fail |
| Transport.ScriptedClient.Write | src/ClientInterface.php:19-22 | `write` is logged and returns the number of characters, or fails |
| Transport.ScriptedClient.Read | src/ClientInterface.php:23 | `read` is logged and hands out the next prepared result, or nothing once the queue is exhausted |
| Transport.ScriptedClient.Close | src/ClientInterface.php:24-27 | `close` is logged and changes nothing else |
| Memcached.Memcached.constructor | src/Memcached.php:22-25 | the facade keeps the client it is given |
| Memcached.Memcached.Destruct | src/Memcached.php:26-29 | destruction makes one `close` call on the client |
| Memcached.Memcached.Command | src/Memcached.php:118-146 | the generator's values and how it stopped, and the client's new state, are those of `CommandSpec` |
| Memcached.Memcached.Get | src/Memcached.php:39-55 | the result and the client's new state are those of `GetSpec` |
| Memcached.Memcached.Set | src/Memcached.php:66-85 | the result and the client's new state are those of `SetSpec` |
| Memcached.Memcached.Delete | src/Memcached.php:92-96 | the result and the client's new state are those of `DeleteSpec` |
| CommandProperties.AwaitingLog | src/Memcached.php:120-128 | before classifying, a command has made exactly `connect`, `write(command + "\r\n")` and `read()` |
| CommandProperties.CommandIsLazy | src/Memcached.php:118-120 | a generator asked for nothing produces nothing and leaves the client untouched |
| CommandProperties.ConnectFailureStopsCommand | src/Memcached.php:120-122 | a failed `connect` raises a connection error after logging only the `connect` |
| CommandProperties.WriteFailureStopsCommand | src/Memcached.php:122-124 | a failed `write` raises a write error after `connect` and `write(command + "\r\n")`, and nothing is read |
| CommandProperties.NoWaitWritesOnly | src/Memcached.php:120-126 | without waiting, the generator yields only the count written, `\|command\| + 2`, and the calls are exactly `connect` and `write(command + "\r\n")` |
| CommandProperties.CommandReads | src/Memcached.php:120-128 | when waiting, the response loop runs over the chunks of the first `read()` |
| CommandProperties.EndYieldsNull | src/Memcached.php:128-132 | `END`, or no line at all, makes the current value null, and nothing more is read |
| CommandProperties.ClientErrorRaises | src/Memcached.php:133-136 | a `CLIENT_ERROR ` line raises a client error carrying the line plus the first chunk of one extra `read(1024)`, when that chunk is truthy |
| CommandProperties.ServerErrorRaises | src/Memcached.php:137-140 | a `SERVER_ERROR ` line raises a server error carrying the line plus the first chunk of one extra `read(1024)`, when that chunk is truthy |
| CommandProperties.ErrorRaises | src/Memcached.php:141-143 | a bare `ERROR` raises the generic error, and nothing more is read |
| CommandProperties.OtherLinesYielded | src/Memcached.php:144 | any other trimmed line, the empty one included, is the current value unchanged, and nothing more is read |
| CommandProperties.ControlLinesFail | src/Memcached.php:130-143 | every control line but `END` makes the current value an error |
| CommandProperties.ScanYieldsLines | src/Memcached.php:128-145 | a response of n plain lines then `END` is produced whole: the n lines in order, then null; the client is not touched |
| CommandProperties.ScanPlainStep | src/Memcached.php:144 | a plain line short of the demand is yielded and the loop goes on to the next chunk |
| CommandProperties.ScanEndStep | src/Memcached.php:130-132 | `END` adds null and suspends the generator when that meets the demand |
| CommandProperties.ScanReadsAtMostOnce | src/Memcached.php:128-145 | the response loop either leaves the client as it is or makes exactly one `read(1024)` |
| CommandProperties.CommandEnds | src/Memcached.php:118-146 | a command asked for one value stops after `connect`, after `write`, after `read()`, or after one more `read(1024)` |
| CommandProperties.CommandConnects | src/Memcached.php:120 | every command asked for a value starts with `connect` |
| CommandProperties.CommandsAreSingleLines | src/Memcached.php:74-81 | with a valid key, the `get`, `delete` and `set` header lines contain no `\r` or `\n` |
| CommandProperties.NoBreakInKey | src/Memcached.php:106 | a valid key holds no `\r`, `\n` or space |
| CommandProperties.FormatIntHasNoBreak | src/Memcached.php:74-81 | `%d` prints no `\r`, `\n` or space |
| FacadeProperties.InvalidKeyNoIo | src/Memcached.php:101-109 | for a rejected key, `get`, `set` and `delete` fail with `InvalidArgument` and leave the client untouched: no connect, no write, no read |
| FacadeProperties.GetEnds | src/Memcached.php:42-54 | after its command, `get` makes at most one more call, a `read(n)` |
| FacadeProperties.ValidKeyConnects | src/Memcached.php:120 | for an accepted key, `get`, `set` and `delete` all start with `connect` |
| FacadeProperties.SetCommandText | src/Memcached.php:74-81 | the `set` command is `set <key> 0 <ttl> <length>\r\n<data>` |
| FacadeProperties.SetHeaderFields | src/Memcached.php:74-81 | the `set` header splits into exactly its five fields, and its length field reads back as the character count of the data, which as a PHP `int` is at most `PHP_INT_MAX` |
| FacadeProperties.SetHeaderJoin | src/Memcached.php:74-81 | the `set` header is `implode(' ')` of five fields without spaces |
| FacadeProperties.DeleteWire | src/Memcached.php:92-96 | `delete` returns normally after exactly `connect` and `write("delete <key> noreply\r\n")`, and reads nothing |
| FacadeProperties.SetWire | src/Memcached.php:66-85 | `set` makes exactly `connect`, `write(set command + "\r\n")` and `read()`, with ttl 3600 when omitted; it makes one more `read(1024)` if and only if the first line starts with `CLIENT_ERROR ` or `SERVER_ERROR ` |
| FacadeProperties.SetDefaultTtl | src/Memcached.php:69-71 | an omitted time to live is the same as 3600 |
| FacadeProperties.SetStoredIff | src/Memcached.php:82-84 | `set` succeeds if and only if the first line is `STORED`; other plain lines fail as store failures carrying the line; `END` or no line fails carrying nothing |
| FacadeProperties.ErrorLinesPropagate | src/Memcached.php:133-143 | `CLIENT_ERROR `, `SERVER_ERROR ` and `ERROR` lines surface from `get` and `set` as the same errors |
| FacadeProperties.GetMiss | src/Memcached.php:42-54 | `get` returns null without reading a data block when there is no line, or the line is `END`, falsy or not a `VALUE` header, or the length field is missing, empty or `0` |
| FacadeProperties.GetHit | src/Memcached.php:46-52 | for a `VALUE` header with a truthy length field, `get` makes exactly one more `read(n)`, n the `(int)` cast of that field, saturated at `PHP_INT_MAX`; it returns the trimmed first chunk, null if that is falsy, and fails if the read yields nothing |
| FacadeProperties.GetAfterSet | src/Memcached.php:46-52 | when the server answers `get` with the header and data block for what `set` wrote, `get` reads exactly that many characters and returns the data (null for falsy data), for data with clean edges |
| FacadeProperties.ValueHeaderLine | src/Memcached.php:129 | a `VALUE` header survives the trimming of the response loop |
| FacadeProperties.ValueHeaderFields | src/Memcached.php:46-47 | the header for stored data is a `VALUE` header whose length field is the printed length |
| FacadeProperties.StepsDoNotClose | src/Memcached.php:120-138 | `connect`, `write` and `read` add no `close` |
| FacadeProperties.CommandDoesNotClose | src/Memcached.php:118-146 | a command never closes the client |
| FacadeProperties.OpsNeverClose | src/Memcached.php:39-96 | no `get`, `set` or `delete`, whatever it returns or raises, closes the client |
| FacadeProperties.ClosedExactlyOnce | src/Memcached.php:26-29 | over a facade's lifetime of any operations followed by destruction, exactly one `close` is added, and it is the last call |
| Scenarios.GetMissingKey | tests/Unit/MemcachedTest.php:42-49 | `get` answered `END` returns null |
| Scenarios.GetExistingKey | tests/Unit/MemcachedTest.php:51-64 | `get` answered `VALUE key 0 5`, then `value` and `END`, returns `"value"` |
| Scenarios.GetZeroBytes | tests/Unit/MemcachedTest.php:66-78 | `get` answered `VALUE key 0 0` returns null |
| Scenarios.GetInvalidHeader | tests/Unit/MemcachedTest.php:80-92 | `get` answered `invalid header` returns null |
| Scenarios.SetStoresData | tests/Unit/MemcachedTest.php:94-102 | `set` answered `STORED` returns normally |
| Scenarios.SetNotStored | tests/Unit/MemcachedTest.php:104-112 | `set` answered `NOT_STORED` fails as a store failure |
| Scenarios.DeleteRemovesKey | tests/Unit/MemcachedTest.php:114-118 | `delete('key')` writes `delete key noreply\r\n` after `connect` and returns normally |
| Scenarios.RejectedKeys | tests/Unit/MemcachedTest.php:120-130 | `get` of a 251-character key, or of `"key\n"`, fails with `InvalidArgument` without I/O |
| Scenarios.SetClientError | tests/Unit/MemcachedTest.php:132-140 | `set` answered `CLIENT_ERROR test` raises a client error |
| Scenarios.SetServerError | tests/Unit/MemcachedTest.php:142-150 | `set` answered `SERVER_ERROR test` raises a server error |
| Scenarios.SetError | tests/Unit/MemcachedTest.php:152-160 | `set` answered `ERROR` raises the generic error |
| Scenarios.DestructorClosesConnection | tests/Unit/MemcachedTest.php:162-166 | destroying a facade closes its client once |

## Left out

- `src/Client/SocketClient.php` is not part of this model. It is socket I/O, replaced by the scripted client of `Transport`.
- `connect` and `write` failures are fixed flags of the scripted client rather than I/O outcomes. `write` returns the character count of its data.
- A `read` after the script is exhausted yields nothing. A real socket would block or time out instead.
- The unit-test mocks that use `willReturnCallback` answer every `read` with the same lines. The model's queue hands each read its own entry.
  - In the error-line scenarios, the detail read therefore yields nothing, where the mock would repeat the line.
  - The tests only check the exception class, so this does not change what they promise.
- Exception message texts are not modelled, only the error kinds. Some consequences:
  - `ClientError` and `ServerError` carry the line with its detail, without the `Client Error: ` or `Server Error: ` prefix.
  - `NotStored` carries the line. It carries `""` when the current value is null, where the message says `line is empty`. A `"0"` line is carried as `"0"`.
- Strings are sequences of characters. Byte strings, multibyte encodings and `mb_strlen` are not distinguished, so the `set` length field is a character count, as the code has it. PCRE `\s` is taken to be space, tab, line feed, vertical tab, form feed and carriage return.
- PhpStrings.LeadingInt: models the `(int)` cast only for unsigned decimal notation. It is the value of the leading digits, 0 when there are none, and `PHP_INT_MAX` (64-bit) when the value is larger. Signs, leading whitespace and exponents in a length field are not modelled.
- A `VALUE` header with fewer than four fields makes `get` return null, as in the source. The model does not capture the "Undefined array key 3" warning PHP emits there, because warnings are not modelled.
- When the data read of `get` yields nothing, the source calls `trim(null)` under strict types, which raises a `TypeError`. The model reports this as `PayloadMissing`.
- A `get` whose command yields a non-line value, which only the no-wait path can produce, is treated like null. `get` never uses that path.
- `FacadeProperties.Lifetime` models destruction only after a sequence of facade operations. PHP's destructor timing, and `close` on a client shared by several facades, are not modelled.
- Behaviour the code does not have is not modelled either:
  - there is no blank-line retry budget, and blank lines are yielded like any other line;
  - a non-numeric length field is no error;
  - `get` does not check that `END` follows the data block;
  - the length field `set` writes counts characters, not bytes;
  - `delete` reads no reply, so it cannot surface server error lines.
