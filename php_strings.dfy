/**
 * The few PHP string primitives the client relies on, with the semantics PHP
 * gives them: loose truthiness of a string, `trim` with its default character
 * list, `strpos(..) === 0` as a prefix test, `explode(' ', ..)`, `sprintf('%d')`
 * and the `(int)` cast of a length field.
 *
 * Strings are sequences of characters; PHP's byte strings and multibyte
 * encodings are not distinguished.
 */
module PhpStrings {

  /** A string is falsy in PHP exactly when it is "" or "0". */
  predicate Falsy(s: string) {
    s == "" || s == "0"
  }

  /** The characters `trim` strips when given no character list:
      space, tab, line feed, carriage return, NUL and vertical tab.
      The form feed is not among them. */
  predicate IsTrimChar(c: char) {
    c == ' ' || c == '\t' || c == '\n' || c == '\r' || c == '\0' || c as int == 0x0B
  }

  /** Neither end of `s` is a character `trim` would strip. */
  predicate CleanEdges(s: string) {
    s == [] || (!IsTrimChar(s[0]) && !IsTrimChar(s[|s| - 1]))
  }

  /** `ltrim`: drops the leading trim characters. */
  function TrimLeft(s: string): string
    decreases |s|
  {
    if |s| > 0 && IsTrimChar(s[0]) then TrimLeft(s[1..]) else s
  }

  /** What `ltrim` leaves is a suffix of `s` that does not start with a trim
      character, and everything it dropped is a trim character. */
  lemma {:induction false} TrimLeftSpec(s: string)
    ensures var r := TrimLeft(s);
            && |r| <= |s| && r == s[|s| - |r|..]
            && (forall k :: 0 <= k < |s| - |r| ==> IsTrimChar(s[k]))
            && (r == [] || !IsTrimChar(r[0]))
    decreases |s|
  {
    if |s| > 0 && IsTrimChar(s[0]) {
      TrimLeftSpec(s[1..]);
    }
  }

  /** `rtrim`: drops the trailing trim characters. */
  function TrimRight(s: string): string
    decreases |s|
  {
    if |s| > 0 && IsTrimChar(s[|s| - 1]) then TrimRight(s[..|s| - 1]) else s
  }

  /** What `rtrim` leaves is a prefix of `s` that does not end with a trim
      character, and everything it dropped is a trim character. */
  lemma {:induction false} TrimRightSpec(s: string)
    ensures var r := TrimRight(s);
            && |r| <= |s| && r == s[..|r|]
            && (forall k :: |r| <= k < |s| ==> IsTrimChar(s[k]))
            && (r == [] || !IsTrimChar(r[|r| - 1]))
    decreases |s|
  {
    if |s| > 0 && IsTrimChar(s[|s| - 1]) {
      TrimRightSpec(s[..|s| - 1]);
    }
  }

  /** Where `trim` starts cutting: the number of leading trim characters. */
  function TrimStart(s: string): int {
    |s| - |TrimLeft(s)|
  }

  /** `trim`: `ltrim` then `rtrim`. */
  function Trim(s: string): string {
    TrimRight(TrimLeft(s))
  }

  /** `trim` gives the factor of `s` that neither starts nor ends with a trim
      character once everything cut off on either side, all of it trim
      characters, is gone. */
  lemma TrimSpec(s: string)
    ensures var r := Trim(s);
            var start := TrimStart(s);
            && CleanEdges(r)
            && 0 <= start && start + |r| <= |s| && r == s[start..start + |r|]
            && (forall k :: 0 <= k < start ==> IsTrimChar(s[k]))
            && (forall k :: start + |r| <= k < |s| ==> IsTrimChar(s[k]))
  {
    var l := TrimLeft(s);
    TrimLeftSpec(s);
    var r := TrimRight(l);
    TrimRightSpec(l);
    var start := TrimStart(s);
    assert l == s[start..];
    assert r == s[start..start + |r|] by {
      assert r == l[..|r|];
    }
    forall k | start + |r| <= k < |s| ensures IsTrimChar(s[k]) {
      assert s[k] == l[k - start];
    }
  }

  lemma {:induction false} TrimLeftClean(s: string)
    requires s == [] || !IsTrimChar(s[0])
    ensures TrimLeft(s) == s
  {
  }

  lemma {:induction false} TrimRightClean(s: string)
    requires s == [] || !IsTrimChar(s[|s| - 1])
    ensures TrimRight(s) == s
  {
  }

  /** `trim` leaves a string with clean edges as it is; in particular it is
      idempotent. */
  lemma TrimOfClean(s: string)
    requires CleanEdges(s)
    ensures Trim(s) == s
  {
    TrimLeftClean(s);
    TrimRightClean(s);
  }

  /** Trimming twice is trimming once. */
  lemma TrimIdempotent(s: string)
    ensures Trim(Trim(s)) == Trim(s)
  {
    TrimSpec(s);
    TrimOfClean(Trim(s));
  }

  /** A line terminator after a clean string is all that `trim` removes. */
  lemma {:induction false} TrimDropsCrlf(s: string)
    requires CleanEdges(s)
    ensures Trim(s + "\r\n") == s
  {
    var t := s + "\r\n";
    TrimLeftClean(s);
    if s == [] {
      assert t[1..] == "\n" && "\n"[1..] == "";
      assert TrimLeft(t) == TrimLeft("\n");
      assert TrimLeft("\n") == TrimLeft("");
    } else {
      assert TrimLeft(t) == t;
      assert t[..|t| - 1] == s + "\r";
      assert (s + "\r")[..|s|] == s;
      assert TrimRight(t) == TrimRight(s + "\r") == TrimRight(s);
      TrimRightClean(s);
    }
  }

  /** `strpos($s, $prefix) === 0`, for a non-empty prefix. */
  predicate StartsWith(s: string, prefix: string) {
    |prefix| <= |s| && s[..|prefix|] == prefix
  }

  /** Index of the first space of `s`, or |s| if there is none. */
  function SpaceIndex(s: string): (i: nat)
    ensures i <= |s|
    decreases |s|
  {
    if s == [] || s[0] == ' ' then 0 else 1 + SpaceIndex(s[1..])
  }

  lemma {:induction false} SpaceIndexSpec(s: string)
    ensures var i := SpaceIndex(s);
            && (forall k :: 0 <= k < i ==> s[k] != ' ')
            && (i < |s| ==> s[i] == ' ')
            && (i == |s| <==> ' ' !in s)
    decreases |s|
  {
    if s != [] && s[0] != ' ' {
      SpaceIndexSpec(s[1..]);
      assert forall c :: c in s <==> c == s[0] || c in s[1..];
    }
  }

  /** `explode(' ', $s)`: the pieces between single spaces, empty ones kept. */
  function Explode(s: string): seq<string>
    decreases |s|
  {
    var i := SpaceIndex(s);
    if i == |s| then [s] else [s[..i]] + Explode(s[i + 1..])
  }

  /** `explode` cuts `s` into at least one field, none holding a space, that
      `implode` puts back together. */
  lemma {:induction false} ExplodeSpec(s: string)
    ensures var fields := Explode(s);
            && |fields| >= 1
            && (forall k :: 0 <= k < |fields| ==> ' ' !in fields[k])
            && Join(fields) == s
    decreases |s|
  {
    var i := SpaceIndex(s);
    SpaceIndexSpec(s);
    if i < |s| {
      var head, rest := s[..i], s[i + 1..];
      ExplodeSpec(rest);
      SpaceFreePrefix(s, i);
      JoinCons(head, Explode(rest));
      SpaceFreeCons(head, Explode(rest));
      assert s == head + " " + rest;
    }
  }

  lemma JoinCons(head: string, tail: seq<string>)
    requires |tail| >= 1
    ensures Join([head] + tail) == head + " " + Join(tail)
  {
    assert ([head] + tail)[1..] == tail;
  }

  lemma SpaceFreeCons(head: string, tail: seq<string>)
    requires ' ' !in head
    requires forall k :: 0 <= k < |tail| ==> ' ' !in tail[k]
    ensures forall k :: 0 <= k < |[head] + tail| ==> ' ' !in ([head] + tail)[k]
  {
  }

  lemma SpaceFreePrefix(s: string, i: nat)
    requires i <= |s|
    requires forall k :: 0 <= k < i ==> s[k] != ' '
    ensures ' ' !in s[..i]
  {
    var head := s[..i];
    forall k | 0 <= k < |head| ensures head[k] != ' ' {
      assert head[k] == s[k];
    }
  }

  /** `implode(' ', $fields)`. */
  function Join(fields: seq<string>): string
    requires |fields| >= 1
  {
    if |fields| == 1 then fields[0] else fields[0] + " " + Join(fields[1..])
  }

  /** `implode` of one more field appends a space and that field. */
  lemma {:induction false} JoinSnoc(fields: seq<string>, x: string)
    requires |fields| >= 1
    ensures Join(fields + [x]) == Join(fields) + " " + x
    decreases |fields|
  {
    var f := fields + [x];
    if |fields| == 1 {
      assert f[1..] == [x];
    } else {
      assert f[1..] == fields[1..] + [x];
      JoinSnoc(fields[1..], x);
      var a, b := fields[0] + " ", Join(fields[1..]);
      assert a + (b + " " + x) == a + b + " " + x;
    }
  }

  /** `explode` undoes `implode` when no field holds the separator. */
  lemma {:induction false} ExplodeJoin(fields: seq<string>)
    requires |fields| >= 1
    requires forall k :: 0 <= k < |fields| ==> ' ' !in fields[k]
    ensures Explode(Join(fields)) == fields
    decreases |fields|
  {
    var f := fields[0];
    assert ' ' !in f;
    if |fields| > 1 {
      var tail := Join(fields[1..]);
      var s := f + (" " + tail);
      assert Join(fields) == s;
      SpaceIndexPrefix(f, " " + tail);
      assert s[..|f|] == f;
      assert s[|f| + 1..] == tail;
      ExplodeJoin(fields[1..]);
      assert fields == [f] + fields[1..];
    } else {
      SpaceIndexSpec(f);
    }
  }

  lemma {:induction false} SpaceIndexPrefix(f: string, t: string)
    requires ' ' !in f && t != [] && t[0] == ' '
    ensures SpaceIndex(f + t) == |f|
    decreases |f|
  {
    if f != [] {
      assert f[0] in f;
      assert (f + t)[1..] == f[1..] + t;
      assert forall c :: c in f[1..] ==> c in f;
      SpaceIndexPrefix(f[1..], t);
    }
  }

  /** A decimal digit. */
  predicate IsDigit(c: char) {
    '0' as int <= c as int <= '9' as int
  }

  function DigitChar(d: nat): (c: char)
    requires d < 10
    ensures IsDigit(c) && DigitValue(c) == d
  {
    "0123456789"[d]
  }

  /** `sprintf('%d', $n)` for a non-negative `n`: its decimal digits, no
      leading zero. */
  function FormatNat(n: nat): (s: string)
    ensures 1 <= |s|
    ensures forall k :: 0 <= k < |s| ==> IsDigit(s[k])
    ensures (s[0] == '0') <==> n == 0
    decreases n
  {
    if n < 10 then [DigitChar(n)] else FormatNat(n / 10) + [DigitChar(n % 10)]
  }

  /** `sprintf('%d', $n)`. */
  function FormatInt(n: int): string {
    if n < 0 then "-" + FormatNat(-n) else FormatNat(n)
  }

  /** Value of a string of decimal digits. */
  function DecimalValue(ds: string): nat
    requires forall k :: 0 <= k < |ds| ==> IsDigit(ds[k])
  {
    if ds == [] then 0
    else DecimalValue(ds[..|ds| - 1]) * 10 + DigitValue(ds[|ds| - 1])
  }

  function DigitValue(c: char): nat
    requires IsDigit(c)
  {
    c as int - '0' as int
  }

  /** Number of leading decimal digits of `s`. */
  function DigitPrefix(s: string): (n: nat)
    ensures n <= |s|
    ensures forall k :: 0 <= k < n ==> IsDigit(s[k])
    ensures n < |s| ==> !IsDigit(s[n])
    decreases |s|
  {
    if s != [] && IsDigit(s[0]) then 1 + DigitPrefix(s[1..]) else 0
  }

  /** The largest PHP integer, on a 64-bit platform. */
  const PhpIntMax: nat := 0x7FFF_FFFF_FFFF_FFFF

  /** The `(int)` cast of a length field, restricted to unsigned decimal
      notation: the value of the leading digits, 0 when there are none, and
      `PHP_INT_MAX` when that value is beyond it. */
  function LeadingInt(s: string): (n: nat)
    ensures n <= PhpIntMax
  {
    var v := DecimalValue(s[..DigitPrefix(s)]);
    if v > PhpIntMax then PhpIntMax else v
  }

  /** Reading back what `%d` printed gives the number again. */
  lemma {:induction false} DecimalOfFormat(n: nat)
    ensures DecimalValue(FormatNat(n)) == n
    decreases n
  {
    if n >= 10 {
      var s := FormatNat(n);
      assert s[..|s| - 1] == FormatNat(n / 10);
      DecimalOfFormat(n / 10);
    }
  }

  /** The `(int)` cast of a printed number gives the number back, saturated
      at `PHP_INT_MAX`. */
  lemma {:induction false} LeadingIntOfFormat(n: nat)
    ensures LeadingInt(FormatNat(n)) == if n > PhpIntMax then PhpIntMax else n
  {
    var s := FormatNat(n);
    DigitPrefixAll(s);
    assert s[..|s|] == s;
    DecimalOfFormat(n);
  }

  lemma {:induction false} DigitPrefixAll(s: string)
    requires forall k :: 0 <= k < |s| ==> IsDigit(s[k])
    ensures DigitPrefix(s) == |s|
    decreases |s|
  {
    if s != [] {
      DigitPrefixAll(s[1..]);
    }
  }

  /** A printed length is falsy exactly when it is zero. */
  lemma {:induction false} FormatNatFalsy(n: nat)
    ensures Falsy(FormatNat(n)) <==> n == 0
  {
    var s := FormatNat(n);
    if n == 0 {
      assert s == "0";
    } else {
      assert s[0] != '0';
      assert s != "0" && s != "";
    }
  }
}
