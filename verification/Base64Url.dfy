/** Unpadded base64url (section 5 of RFC 4648) with the one-spelling rule that manifest ids,
    fingerprints, keys and signatures are held to (manifest/manifest.go, identity/proof.go). */
module Base64Url {
  import opened Bytes
  import opened Options

  function Letter(n: nat): (c: byte)
    requires n < 64
    ensures Digit(c) == Some(n)
  {
    if n < 26 then Byte(n + 65)
    else if n < 52 then Byte(n + 71)
    else if n < 62 then Byte(n - 4)
    else if n == 62 then '-' else '_'
  }

  function Digit(c: byte): (d: Option<nat>)
    ensures d.Some? ==> d.value < 64
  {
    var n := c as int;
    if 65 <= n < 91 then Some(n - 65)
    else if 97 <= n < 123 then Some(n - 71)
    else if 48 <= n < 58 then Some(n + 4)
    else if c == '-' then Some(62)
    else if c == '_' then Some(63)
    else None
  }

  lemma DigitIsInjective(c: byte)
    requires Digit(c).Some?
    ensures Letter(Digit(c).value) == c
  {
  }

  function Encode(b: Bytes): Bytes {
    if b == [] then []
    else
      var b0 := b[0] as int;
      if |b| == 1 then [Letter(b0 / 4), Letter(b0 % 4 * 16)]
      else
        var b1 := b[1] as int;
        if |b| == 2 then [Letter(b0 / 4), Letter(b0 % 4 * 16 + b1 / 16), Letter(b1 % 16 * 4)]
        else
          var b2 := b[2] as int;
          [Letter(b0 / 4), Letter(b0 % 4 * 16 + b1 / 16), Letter(b1 % 16 * 4 + b2 / 64), Letter(b2 % 64)]
            + Encode(b[3..])
  }

  /** Go's decoder skips line breaks wherever they stand. */
  function StripBreaks(s: Bytes): Bytes {
    if s == [] then []
    else if s[0] == '\r' || s[0] == '\n' then StripBreaks(s[1..])
    else [s[0]] + StripBreaks(s[1..])
  }

  /** Four letters give three bytes; a final group of two or three letters gives one or two,
      and the spare low bits of its last letter are dropped without being looked at. */
  function DecodeLetters(s: Bytes): Result<Bytes> {
    if s == [] then Ok([])
    else if |s| == 1 || Digit(s[0]).None? || Digit(s[1]).None? then Err
    else
      var d0, d1 := Digit(s[0]).value, Digit(s[1]).value;
      var b0 := Byte(d0 * 4 + d1 / 16);
      if |s| == 2 then Ok([b0])
      else if Digit(s[2]).None? then Err
      else
        var d2 := Digit(s[2]).value;
        var b1 := Byte(d1 % 16 * 16 + d2 / 4);
        if |s| == 3 then Ok([b0, b1])
        else if Digit(s[3]).None? then Err
        else
          var d3 := Digit(s[3]).value;
          var tail :- DecodeLetters(s[4..]);
          Ok([b0, b1, Byte(d2 % 4 * 64 + d3)] + tail)
  }

  function Decode(s: Bytes): Result<Bytes> {
    DecodeLetters(StripBreaks(s))
  }

  /** decodeExact, and DecodeID when `want` is 32: right length, and re-encodes to itself. */
  function DecodeExact(s: Bytes, want: nat): Result<Bytes> {
    var b :- Decode(s);
    var _ :- Need(|b| == want);
    var _ :- Need(Encode(b) == s);
    Ok(b)
  }

  function DecodeID(s: Bytes): Result<Bytes> {
    DecodeExact(s, 32)
  }

  // --- what is accepted --------------------------------------------------------

  function EncodedLength(n: nat): nat {
    n / 3 * 4 + if n % 3 == 0 then 0 else n % 3 + 1
  }

  /** The spellings of `n` bytes, said without encoding anything: right length, only letters of
      the alphabet, and no spare bit set in the last letter. */
  predicate Spelling(s: Bytes, n: nat) {
    && |s| == EncodedLength(n)
    && (forall i :: 0 <= i < |s| ==> Digit(s[i]).Some?)
    && (n % 3 == 1 ==> Digit(s[|s| - 1]).value % 16 == 0)
    && (n % 3 == 2 ==> Digit(s[|s| - 1]).value % 4 == 0)
  }

  lemma {:induction false} EncodeSpells(b: Bytes)
    ensures Spelling(Encode(b), |b|)
  {
    if |b| > 2 {
      EncodeSpells(b[3..]);
    }
  }

  /** The digits that carry three bytes (or the first one or two of them). */
  predicate Carries(s: Bytes, b: Bytes) {
    && |b| > 0 && |s| > 1
    && var b0 := b[0] as int;
    && Digit(s[0]) == Some(b0 / 4)
    && if |b| == 1 then Digit(s[1]) == Some(b0 % 4 * 16)
       else |s| > 2 && var b1 := b[1] as int;
         && Digit(s[1]) == Some(b0 % 4 * 16 + b1 / 16)
         && if |b| == 2 then Digit(s[2]) == Some(b1 % 16 * 4)
            else |s| > 3 && var b2 := b[2] as int;
              && Digit(s[2]) == Some(b1 % 16 * 4 + b2 / 64) && Digit(s[3]) == Some(b2 % 64)
  }

  lemma EncodeCarries(b: Bytes)
    requires b != []
    ensures Carries(Encode(b), b)
    ensures |b| < 3 ==> |Encode(b)| == |b| + 1
    ensures |b| >= 3 ==> |Encode(b)| >= 4 && Encode(b)[4..] == Encode(b[3..])
  {
  }

  lemma DecodeOne(s: Bytes, b: Bytes)
    requires |b| == 1 && |s| == 2 && Carries(s, b)
    ensures DecodeLetters(s) == Ok(b)
  {
    assert b == [b[0]];
  }

  lemma DecodeTwo(s: Bytes, b: Bytes)
    requires |b| == 2 && |s| == 3 && Carries(s, b)
    ensures DecodeLetters(s) == Ok(b)
  {
    assert b == [b[0], b[1]];
  }

  lemma DecodeThree(s: Bytes, b: Bytes)
    requires |b| >= 3 && |s| >= 4 && Carries(s, b) && DecodeLetters(s[4..]) == Ok(b[3..])
    ensures DecodeLetters(s) == Ok(b)
  {
    var d0, d1, d2, d3 := Digit(s[0]).value, Digit(s[1]).value, Digit(s[2]).value, Digit(s[3]).value;
    var b0, b1, b2 := b[0] as int, b[1] as int, b[2] as int;
    assert d0 * 4 + d1 / 16 == b0 && d1 % 16 * 16 + d2 / 4 == b1 && d2 % 4 * 64 + d3 == b2;
    assert DecodeLetters(s) == Ok([b[0], b[1], b[2]] + b[3..]);
    assert b == [b[0], b[1], b[2]] + b[3..];
  }

  lemma {:induction false} LettersRoundTrip(b: Bytes)
    ensures DecodeLetters(Encode(b)) == Ok(b)
  {
    if b != [] {
      var s := Encode(b);
      EncodeCarries(b);
      if |b| == 1 {
        DecodeOne(s, b);
      } else if |b| == 2 {
        DecodeTwo(s, b);
      } else {
        LettersRoundTrip(b[3..]);
        DecodeThree(s, b);
      }
    }
  }

  /** A whole group of letters is what its three bytes encode to. */
  lemma WholeGroup(s: Bytes)
    requires |s| >= 4 && DecodeLetters(s).Ok?
    ensures var b := DecodeLetters(s).value;
      |b| >= 3 && DecodeLetters(s[4..]) == Ok(b[3..]) && Encode(b) == s[..4] + Encode(b[3..])
  {
    var b := DecodeLetters(s).value;
    assert b[3..] == DecodeLetters(s[4..]).value;
    DigitIsInjective(s[0]); DigitIsInjective(s[1]); DigitIsInjective(s[2]); DigitIsInjective(s[3]);
    var d0, d1, d2, d3 := Digit(s[0]).value, Digit(s[1]).value, Digit(s[2]).value, Digit(s[3]).value;
    var b0, b1, b2 := b[0] as int, b[1] as int, b[2] as int;
    assert b0 / 4 == d0 && b0 % 4 * 16 + b1 / 16 == d1;
    assert b1 % 16 * 4 + b2 / 64 == d2 && b2 % 64 == d3;
    assert s[..4] == [s[0], s[1], s[2], s[3]];
  }

  lemma LastGroupOfTwo(s: Bytes)
    requires Spelling(s, 1)
    ensures DecodeLetters(s).Ok? && |DecodeLetters(s).value| == 1 && Encode(DecodeLetters(s).value) == s
  {
    DigitIsInjective(s[0]); DigitIsInjective(s[1]);
    var d0, d1 := Digit(s[0]).value, Digit(s[1]).value;
    var b0 := Byte(d0 * 4 + d1 / 16);
    assert DecodeLetters(s) == Ok([b0]);
    assert b0 as int / 4 == d0 && b0 as int % 4 * 16 == d1;
    assert s == [s[0], s[1]];
  }

  lemma LastGroupOfThree(s: Bytes)
    requires Spelling(s, 2)
    ensures DecodeLetters(s).Ok? && |DecodeLetters(s).value| == 2 && Encode(DecodeLetters(s).value) == s
  {
    DigitIsInjective(s[0]); DigitIsInjective(s[1]); DigitIsInjective(s[2]);
    var d0, d1, d2 := Digit(s[0]).value, Digit(s[1]).value, Digit(s[2]).value;
    var b0, b1 := Byte(d0 * 4 + d1 / 16), Byte(d1 % 16 * 16 + d2 / 4);
    assert DecodeLetters(s) == Ok([b0, b1]);
    assert b0 as int / 4 == d0 && b0 as int % 4 * 16 + b1 as int / 16 == d1 && b1 as int % 16 * 4 == d2;
    assert s == [s[0], s[1], s[2]];
  }

  /** Every spelling decodes to its length and is the one the encoder would have chosen. */
  lemma {:induction false} SpellingRoundTrip(s: Bytes, n: nat)
    requires Spelling(s, n)
    ensures DecodeLetters(s).Ok? && |DecodeLetters(s).value| == n && Encode(DecodeLetters(s).value) == s
  {
    if n == 1 {
      LastGroupOfTwo(s);
    } else if n == 2 {
      LastGroupOfThree(s);
    } else if n > 2 {
      assert Spelling(s[4..], n - 3);
      SpellingRoundTrip(s[4..], n - 3);
      WholeGroup(s);
      assert s == s[..4] + s[4..];
    }
  }

  lemma {:induction false} NoBreaksToStrip(s: Bytes)
    requires forall i :: 0 <= i < |s| ==> Digit(s[i]).Some?
    ensures StripBreaks(s) == s
  {
    if s != [] {
      assert Digit(s[0]).Some?;
      NoBreaksToStrip(s[1..]);
    }
  }

  lemma DecodeEncode(b: Bytes)
    ensures Decode(Encode(b)) == Ok(b)
  {
    EncodeSpells(b);
    NoBreaksToStrip(Encode(b));
    LettersRoundTrip(b);
  }

  /** One spelling per value: exactly the encoder's output is accepted. */
  lemma OneSpelling(s: Bytes, want: nat, b: Bytes)
    ensures DecodeExact(s, want) == Ok(b) <==> |b| == want && s == Encode(b)
  {
    if |b| == want && s == Encode(b) {
      DecodeEncode(b);
    }
  }

  /** The accepted strings, described bit by bit. */
  lemma AcceptedIffSpelling(s: Bytes, want: nat)
    ensures DecodeExact(s, want).Ok? <==> Spelling(s, want)
  {
    if DecodeExact(s, want).Ok? {
      var b := DecodeExact(s, want).value;
      EncodeSpells(b);
    }
    if Spelling(s, want) {
      NoBreaksToStrip(s);
      SpellingRoundTrip(s, want);
    }
  }

  lemma EncodeInjective(a: Bytes, b: Bytes)
    requires Encode(a) == Encode(b)
    ensures a == b
  {
    DecodeEncode(a);
    DecodeEncode(b);
  }
}
