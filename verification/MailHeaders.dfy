/** The header block of a message: folded fields before the first blank line (message/header.go,
    sections 2.2 and 2.2.3 of RFC 5322). */
module MailHeaders {
  import opened Bytes
  import opened Options
  import opened Text

  datatype Cutting = Cutting(line: Bytes, rest: Bytes)

  /** nextLine: one line with its terminator, and what follows. */
  function NextLine(b: Bytes): (c: Cutting)
    ensures b == c.line + c.rest
    ensures b != [] ==> c.line != []
  {
    if b == [] then Cutting([], [])
    else if b[0] == '\n' then Cutting(b[..1], b[1..])
    else
      var c := NextLine(b[1..]);
      Cutting([b[0]] + c.line, c.rest)
  }

  /** Nothing but line terminators. */
  predicate IsBlank(line: Bytes) {
    forall i :: 0 <= i < |line| ==> line[i] == '\r' || line[i] == '\n'
  }

  predicate IsContinuation(line: Bytes) {
    line != [] && (line[0] == ' ' || line[0] == '\t')
  }

  function Prefix(name: Bytes): Bytes { Lower(name) + ":" }

  /** The line starts the named field, whatever its case. */
  predicate Starts(line: Bytes, name: Bytes) {
    Prefix(name) <= Lower(line)
  }

  // --- what the functions compute ------------------------------------------------------------

  /** The body: what follows the first blank line. */
  function Body(raw: Bytes): Bytes
    decreases |raw|
  {
    if raw == [] then []
    else if IsBlank(NextLine(raw).line) then NextLine(raw).rest
    else Body(NextLine(raw).rest)
  }

  /** The header block: every line before the first blank one. */
  function Block(raw: Bytes): Bytes
    decreases |raw|
  {
    if raw == [] || IsBlank(NextLine(raw).line) then []
    else NextLine(raw).line + Block(NextLine(raw).rest)
  }

  /** The unfolded text of the continuation lines a text starts with. */
  function Unfolded(raw: Bytes): Bytes
    decreases |raw|
  {
    var c := NextLine(raw);
    if !IsContinuation(c.line) then [] else " " + Trim(c.line) + Unfolded(c.rest)
  }

  /** The value of the first occurrence of a field. */
  function Value(raw: Bytes, name: Bytes): Bytes
    decreases |raw|
  {
    var c := NextLine(raw);
    if raw == [] || IsBlank(c.line) then []
    else if Starts(c.line, name) then Trim(Trim(c.line[|Prefix(name)|..]) + Unfolded(c.rest))
    else Value(c.rest, name)
  }

  /** The text without a field and the lines folded into it; `dropping` says the line before
      belonged to it. */
  function Removed(raw: Bytes, name: Bytes, dropping: bool): Bytes
    decreases |raw|
  {
    var c := NextLine(raw);
    if raw == [] || IsBlank(c.line) then raw
    else
      var drop := if IsContinuation(c.line) then dropping else Starts(c.line, name);
      (if drop then [] else c.line) + Removed(c.rest, name, drop)
  }

  function FieldLine(name: Bytes, value: Bytes): Bytes { name + ": " + value + "\r\n" }

  function With(raw: Bytes, name: Bytes, value: Bytes): Bytes {
    FieldLine(name, value) + Removed(raw, name, false)
  }

  // --- the loops -----------------------------------------------------------------------------

  /** One line of a header block. */
  lemma LinePassed(raw: Bytes)
    requires raw != [] && !IsBlank(NextLine(raw).line)
    ensures var c := NextLine(raw);
      Body(raw) == Body(c.rest) && Block(raw) == c.line + Block(c.rest)
  {
  }

  lemma ValuePassed(raw: Bytes, name: Bytes)
    requires raw != [] && !IsBlank(NextLine(raw).line)
    ensures var c := NextLine(raw);
      Value(raw, name) == if Starts(c.line, name) then Trim(Trim(c.line[|Prefix(name)|..]) + Unfolded(c.rest)) else Value(c.rest, name)
  {
  }

  method SplitHeaderBody(raw: Bytes) returns (header: Bytes, body: Bytes)
    ensures header == Block(raw) && body == Body(raw)
  {
    var i: nat, rest := 0, raw;
    ghost var passed: Bytes := [];
    while rest != []
      invariant passed + rest == raw && |passed| == i
      invariant Body(raw) == Body(rest) && Block(raw) == passed + Block(rest)
      decreases |rest|
    {
      Seam(passed, rest);
      var c := NextLine(rest);
      if IsBlank(c.line) {
        return raw[..i], c.rest;
      }
      LinePassed(rest);
      Associative(passed, c.line, c.rest);
      Associative(passed, c.line, Block(c.rest));
      passed, i, rest := passed + c.line, i + |c.line|, c.rest;
    }
    return raw, [];
  }

  lemma JoinedFour(a: Bytes, b: Bytes, c: Bytes, d: Bytes)
    ensures a + b + c + d == a + (b + c + d)
  {
  }

  lemma Folded(value: Bytes, raw: Bytes)
    requires raw != [] && IsContinuation(NextLine(raw).line)
    ensures var c := NextLine(raw); value + " " + Trim(c.line) + Unfolded(c.rest) == value + Unfolded(raw)
  {
    var c := NextLine(raw);
    JoinedFour(value, " ", Trim(c.line), Unfolded(c.rest));
  }

  lemma NotFolded(value: Bytes, raw: Bytes)
    requires raw == [] || !IsContinuation(NextLine(raw).line)
    ensures value + Unfolded(raw) == value
  {
  }

  method HeaderValue(raw: Bytes, name: Bytes) returns (r: Bytes)
    ensures r == Value(raw, name)
  {
    var value: Bytes, collecting, rest := [], false, raw;
    while rest != []
      invariant collecting ==> Value(raw, name) == Trim(value + Unfolded(rest))
      invariant !collecting ==> value == [] && Value(raw, name) == Value(rest, name)
      decreases |rest|
    {
      var c := NextLine(rest);
      if IsBlank(c.line) {
        break;
      }
      if collecting && IsContinuation(c.line) {
        Folded(value, rest);
        value := value + " " + Trim(c.line);
      } else if collecting {
        NotFolded(value, rest);
        return Trim(value);
      } else if Starts(c.line, name) {
        ValuePassed(rest, name);
        collecting := true;
        value := value + Trim(c.line[|Prefix(name)|..]);
        assert value == Trim(c.line[|Prefix(name)|..]);
      }
      rest := c.rest;
    }
    NotFolded(value, rest);
    return Trim(value);
  }

  lemma RemovedStep(raw: Bytes, name: Bytes, dropping: bool)
    requires raw != [] && !IsBlank(NextLine(raw).line)
    ensures var c := NextLine(raw); var drop := if IsContinuation(c.line) then dropping else Starts(c.line, name);
      Removed(raw, name, dropping) == if drop then Removed(c.rest, name, drop) else c.line + Removed(c.rest, name, drop)
  {
  }

  method RemoveHeader(raw: Bytes, name: Bytes) returns (r: Bytes)
    ensures r == Removed(raw, name, false)
  {
    var out: Option<Bytes>, rest, dropping := None, raw, false;
    while rest != []
      invariant out.None? ==> rest == raw && !dropping
      invariant out.Some? ==> Removed(raw, name, false) == out.value + Removed(rest, name, dropping)
      decreases |rest|
    {
      var c := NextLine(rest);
      if IsBlank(c.line) {
        return if out.None? then raw else out.value + rest;
      }
      RemovedStep(rest, name, dropping);
      if IsContinuation(c.line) && dropping {
        rest := c.rest;
        continue;
      }
      if !IsContinuation(c.line) {
        dropping := Starts(c.line, name);
      }
      if out.None? {
        out := Some(raw[..|raw| - |rest|]);
        assert out.value == [];
      }
      if !dropping {
        Associative(out.value, c.line, Removed(c.rest, name, dropping));
        out := Some(out.value + c.line);
      }
      rest := c.rest;
    }
    return if out.None? then raw else out.value;
  }

  method SetHeader(raw: Bytes, name: Bytes, value: Bytes) returns (r: Bytes)
    ensures r == With(raw, name, value)
  {
    var stripped := RemoveHeader(raw, name);
    return FieldLine(name, value) + stripped;
  }
}
