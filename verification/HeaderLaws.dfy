/** The algebra of editing a header block. */
module HeaderLaws {
  import opened Bytes
  import opened Text
  import opened MailHeaders

  // --- lines -------------------------------------------------------------------------------

  /** A line as `NextLine` cuts it: one terminator at most, at the end, missing only if nothing follows. */
  predicate WellCut(line: Bytes, rest: Bytes) {
    && line != [] && (forall i :: 0 <= i < |line| - 1 ==> line[i] != '\n')
    && (line[|line| - 1] == '\n' || rest == [])
  }

  lemma {:induction false} CutIsWell(raw: Bytes)
    requires raw != []
    ensures WellCut(NextLine(raw).line, NextLine(raw).rest)
  {
    if raw[0] != '\n' && |raw| > 1 { CutIsWell(raw[1..]); }
  }

  lemma {:induction false} Recut(line: Bytes, rest: Bytes)
    requires WellCut(line, rest)
    ensures NextLine(line + rest) == Cutting(line, rest)
  {
    if line[0] == '\n' {
      assert |line| == 1;
    } else if |line| > 1 {
      Recut(line[1..], rest);
      assert (line + rest)[1..] == line[1..] + rest;
    } else {
      assert line + rest == line && NextLine(line[1..]) == Cutting([], []);
    }
  }

  /** What removal leaves of a block is cut into the lines that were kept. */
  lemma KeptLine(raw: Bytes, name: Bytes, d: bool)
    requires raw != []
    ensures var c := NextLine(raw); var x := Removed(c.rest, name, d);
      NextLine(c.line + x) == Cutting(c.line, x) && c.line + x != []
  {
    CutIsWell(raw);
    Recut(NextLine(raw).line, Removed(NextLine(raw).rest, name, d));
  }

  // --- removing twice ------------------------------------------------------------------------

  /** Dropping two fields in one pass. */
  function Both(raw: Bytes, m: Bytes, n: Bytes, dropping: bool): Bytes
    decreases |raw|
  {
    var c := NextLine(raw);
    if raw == [] || IsBlank(c.line) then raw
    else
      var drop := if IsContinuation(c.line) then dropping else Starts(c.line, m) || Starts(c.line, n);
      if drop then Both(c.rest, m, n, drop) else c.line + Both(c.rest, m, n, drop)
  }

  lemma {:induction false} TwoPasses(raw: Bytes, m: Bytes, n: Bytes, a: bool, b: bool)
    ensures Removed(Removed(raw, m, a), n, b) == Both(raw, m, n, a || b)
    decreases |raw|
  {
    var c := NextLine(raw);
    if raw != [] && !IsBlank(c.line) {
      var drop := if IsContinuation(c.line) then a else Starts(c.line, m);
      RemovedStep(raw, m, a);
      if drop {
        TwoPasses(c.rest, m, n, true, b);
      } else {
        KeptLine(raw, m, false);
        RemovedStep(c.line + Removed(c.rest, m, false), n, b);
        TwoPasses(c.rest, m, n, false, if IsContinuation(c.line) then b else Starts(c.line, n));
      }
    }
  }

  lemma {:induction false} BothEitherOrder(raw: Bytes, m: Bytes, n: Bytes, d: bool)
    ensures Both(raw, m, n, d) == Both(raw, n, m, d)
    decreases |raw|
  {
    var c := NextLine(raw);
    if raw != [] && !IsBlank(c.line) {
      BothEitherOrder(c.rest, m, n, if IsContinuation(c.line) then d else Starts(c.line, m) || Starts(c.line, n));
    }
  }

  lemma {:induction false} BothOfOne(raw: Bytes, n: Bytes, d: bool)
    ensures Both(raw, n, n, d) == Removed(raw, n, d)
    decreases |raw|
  {
    var c := NextLine(raw);
    if raw != [] && !IsBlank(c.line) {
      BothOfOne(c.rest, n, if IsContinuation(c.line) then d else Starts(c.line, n));
    }
  }

  /** RemoveHeader is idempotent. */
  lemma RemoveTwice(raw: Bytes, n: Bytes)
    ensures Removed(Removed(raw, n, false), n, false) == Removed(raw, n, false)
  {
    TwoPasses(raw, n, n, false, false);
    BothOfOne(raw, n, false);
  }

  /** RemoveHeader commutes, for any two names whatever. */
  lemma RemoveCommutes(raw: Bytes, m: Bytes, n: Bytes)
    ensures Removed(Removed(raw, m, false), n, false) == Removed(Removed(raw, n, false), m, false)
  {
    TwoPasses(raw, m, n, false, false);
    TwoPasses(raw, n, m, false, false);
    BothEitherOrder(raw, m, n, false);
  }

  // --- what removal keeps ----------------------------------------------------------------------

  /** The body is untouched, byte for byte. */
  lemma {:induction false} RemoveKeepsBody(raw: Bytes, n: Bytes, d: bool)
    ensures Body(Removed(raw, n, d)) == Body(raw)
    decreases |raw|
  {
    var c := NextLine(raw);
    if raw != [] && !IsBlank(c.line) {
      var drop := if IsContinuation(c.line) then d else Starts(c.line, n);
      RemovedStep(raw, n, d);
      KeptLine(raw, n, drop);
      RemoveKeepsBody(c.rest, n, drop);
    }
  }

  /** And only the header block is looked at. */
  lemma {:induction false} RemoveIsOfBlock(raw: Bytes, n: Bytes, d: bool)
    ensures Block(Removed(raw, n, d)) == Removed(Block(raw), n, d)
    decreases |raw|
  {
    var c := NextLine(raw);
    if raw != [] && !IsBlank(c.line) {
      var drop := if IsContinuation(c.line) then d else Starts(c.line, n);
      RemovedStep(raw, n, d);
      KeptLine(raw, n, drop);
      CutIsWell(raw);
      assert c.rest == [] ==> Block(c.rest) == [];
      Recut(c.line, Block(c.rest));
      RemovedStep(c.line + Block(c.rest), n, d);
      RemoveIsOfBlock(c.rest, n, drop);
    }
  }

  lemma ContinuationStartsNothing(line: Bytes, n: Bytes)
    requires IsContinuation(line) && !IsContinuation(n)
    ensures !Starts(line, n)
  {
    assert Prefix(n)[0] == if n == [] then ':' else LowerByte(n[0]);
    assert Lower(line)[0] == LowerByte(line[0]);
  }

  /** A removed field reads as empty. */
  lemma {:induction false} RemovedIsGone(raw: Bytes, n: Bytes, d: bool)
    requires !IsContinuation(n)
    ensures Value(Removed(raw, n, d), n) == []
    decreases |raw|
  {
    var c := NextLine(raw);
    if raw != [] && !IsBlank(c.line) {
      var drop := if IsContinuation(c.line) then d else Starts(c.line, n);
      RemovedStep(raw, n, d);
      KeptLine(raw, n, drop);
      if IsContinuation(c.line) { ContinuationStartsNothing(c.line, n); }
      RemovedIsGone(c.rest, n, drop);
    }
  }

  // --- other fields ------------------------------------------------------------------------------

  /** Two different field names: no colon inside, and distinct whatever the case. */
  predicate Apart(m: Bytes, n: Bytes) {
    Without(m, ':') && Without(n, ':') && Lower(m) != Lower(n)
  }

  /** What stands before the first colon of a line is the name of the field it starts. */
  lemma FieldName(line: Bytes, m: Bytes)
    requires Without(m, ':') && Starts(line, m)
    ensures var cut := Cut(Lower(line), ':'); cut.Some? && cut.value.key == Lower(m)
  {
    var low, k := Lower(line), |Prefix(m)|;
    assert low == Prefix(m) + low[k..];
    CutAt(Lower(m), ':', low[k..]);
  }

  lemma OneField(line: Bytes, m: Bytes, n: Bytes)
    requires Apart(m, n) && Starts(line, m)
    ensures !Starts(line, n)
  {
    FieldName(line, m);
    if Starts(line, n) { FieldName(line, n); }
  }

  /** After a line that is not dropped, removal starts no fold of its own. */
  lemma {:induction false} StartsClean(raw: Bytes, n: Bytes, d: bool)
    requires d || !IsContinuation(raw)
    ensures !IsContinuation(Removed(raw, n, d))
    decreases |raw|
  {
    var c := NextLine(raw);
    if raw != [] && !IsBlank(c.line) {
      assert c.line[0] == raw[0];
      var drop := if IsContinuation(c.line) then d else Starts(c.line, n);
      RemovedStep(raw, n, d);
      if drop { StartsClean(c.rest, n, true); }
    }
  }

  lemma {:induction false} UnfoldedKept(raw: Bytes, n: Bytes)
    ensures Unfolded(Removed(raw, n, false)) == Unfolded(raw)
    decreases |raw|
  {
    var c := NextLine(raw);
    if raw != [] && !IsBlank(c.line) {
      assert c.line[0] == raw[0];
      if IsContinuation(c.line) {
        RemovedStep(raw, n, false);
        KeptLine(raw, n, false);
        UnfoldedKept(c.rest, n);
      } else {
        StartsClean(raw, n, false);
        var x := Removed(raw, n, false);
        assert x != [] ==> NextLine(x).line[0] == x[0];
      }
    }
  }

  /** Removing a field leaves the value of every other one alone. */
  lemma {:induction false} RemoveKeepsOthers(raw: Bytes, m: Bytes, n: Bytes, d: bool)
    requires Apart(m, n) && !IsContinuation(n)
    ensures Value(Removed(raw, m, d), n) == Value(raw, n)
    decreases |raw|
  {
    var c := NextLine(raw);
    if raw != [] && !IsBlank(c.line) {
      var drop := if IsContinuation(c.line) then d else Starts(c.line, m);
      RemovedStep(raw, m, d);
      KeptLine(raw, m, drop);
      if IsContinuation(c.line) {
        ContinuationStartsNothing(c.line, n);
      } else if drop {
        OneField(c.line, m, n);
      }
      UnfoldedKept(c.rest, m);
      RemoveKeepsOthers(c.rest, m, n, drop);
    }
  }

  // --- names that are no names -----------------------------------------------------------------

  /** A name with a line break in it starts no line. */
  lemma BrokenName(raw: Bytes, n: Bytes)
    requires !Without(n, '\n') && raw != []
    ensures !Starts(NextLine(raw).line, n)
  {
    CutIsWell(raw);
    var line := NextLine(raw).line;
    var i :| 0 <= i < |n| && n[i] == '\n';
    assert Prefix(n)[i] == '\n' && i < |Prefix(n)| - 1;
    assert i < |line| - 1 ==> Lower(line)[i] == LowerByte(line[i]) != '\n';
  }

  lemma {:induction false} BrokenNameReadsNothing(raw: Bytes, n: Bytes)
    requires !Without(n, '\n')
    ensures Value(raw, n) == []
    decreases |raw|
  {
    if raw != [] && !IsBlank(NextLine(raw).line) {
      BrokenName(raw, n);
      BrokenNameReadsNothing(NextLine(raw).rest, n);
    }
  }

  lemma FoldedLine(n: Bytes)
    requires IsContinuation(n) && Without(n, '\n')
    ensures var raw := n + ":v"; NextLine(raw) == Cutting(raw, []) && IsContinuation(raw) && !IsBlank(raw)
    ensures var raw := n + ":v"; Starts(raw, n) && raw[|Prefix(n)|..] == "v"
  {
    var raw: Bytes, v: Bytes := n + ":v", "v";
    assert WellCut(raw, []);
    Recut(raw, []);
    assert raw + [] == raw && raw[0] == n[0];
    assert Lower(raw) == Prefix(n) + Lower(v);
  }

  /** A name that looks like a fold is found by the reader and skipped by the remover. */
  lemma FoldedNameSurvives(n: Bytes)
    requires IsContinuation(n) && Without(n, '\n')
    ensures Value(Removed(n + ":v", n, false), n) == "v"
  {
    var raw: Bytes, v: Bytes := n + ":v", "v";
    FoldedLine(n);
    RemovedStep(raw, n, false);
    assert Removed([], n, false) == [] && raw + [] == raw;
    ValuePassed(raw, n);
    TrimTight(v);
    assert v + [] == v;
  }

  /** Exactly for which names removal always leaves nothing to read. */
  lemma RemovedIsGoneIff(n: Bytes)
    ensures (forall raw :: Value(Removed(raw, n, false), n) == []) <==> !(IsContinuation(n) && Without(n, '\n'))
  {
    if IsContinuation(n) && Without(n, '\n') {
      FoldedNameSurvives(n);
      var raw: Bytes := n + ":v";
      assert Value(Removed(raw, n, false), n) != [];
    } else {
      forall raw ensures Value(Removed(raw, n, false), n) == [] {
        if IsContinuation(n) { BrokenNameReadsNothing(Removed(raw, n, false), n); } else { RemovedIsGone(raw, n, false); }
      }
    }
  }

  // --- setting -----------------------------------------------------------------------------------

  lemma {:induction false} TrimLeftCut(s: Bytes)
    ensures var t := TrimLeft(s); |t| <= |s| && s[|s| - |t|..] == t && AllSpace(s[..|s| - |t|]) && (t == [] || !IsSpace(t[0]))
  {
    if s != [] && IsSpace(s[0]) {
      TrimLeftCut(s[1..]);
      var t := TrimLeft(s[1..]);
      assert s[..|s| - |t|] == [s[0]] + s[1..][..|s[1..]| - |t|];
    }
  }

  lemma {:induction false} TrimRightCut(s: Bytes)
    ensures var t := TrimRight(s); t <= s && AllSpace(s[|t|..]) && (t == [] || !IsSpace(t[|t| - 1]))
  {
    if s != [] && IsSpace(s[|s| - 1]) {
      TrimRightCut(s[..|s| - 1]);
      var t := TrimRight(s);
      assert s[|t|..] == s[..|s| - 1][|t|..] + [s[|s| - 1]];
    }
  }

  /** A text is its trimmed self between white space. */
  lemma TrimCut(s: Bytes) returns (p: Bytes, q: Bytes)
    ensures s == p + Trim(s) + q && AllSpace(p) && AllSpace(q) && Tight(Trim(s))
  {
    var l := TrimLeft(s);
    TrimLeftCut(s);
    TrimRightCut(l);
    p, q := s[..|s| - |l|], l[|Trim(s)|..];
  }

  /** White space around a text does not change what trimming leaves. */
  lemma TrimAround(p: Bytes, s: Bytes, q: Bytes)
    requires AllSpace(p) && AllSpace(q)
    ensures Trim(p + s + q) == Trim(s)
  {
    var a, b := TrimCut(s);
    TrimPadding(p + a, Trim(s), b + q);
    assert p + s + q == (p + a) + Trim(s) + (b + q);
  }

  /** Text appended to a tight one is trimmed away exactly when it is all white space. */
  lemma AppendTrimsIff(t: Bytes, u: Bytes)
    requires Tight(t)
    ensures Trim(t + u) == t <==> AllSpace(u)
  {
    if AllSpace(u) {
      TrimPadding([], t, u);
      assert [] + t + u == t + u;
    }
    if Trim(t + u) == t {
      if t == [] {
        var p, q := TrimCut(t + u);
        assert t + u == u && p + t + q == p + q;
      } else {
        assert (t + u)[0] == t[0];
        TrimRightCut(t + u);
        Seam(t, u);
      }
    }
  }

  /** The line SetHeader writes is one line, and starts its field. */
  lemma WrittenLine(n: Bytes, v: Bytes, rest: Bytes)
    requires Without(n, '\n') && Without(v, '\n')
    ensures var line := FieldLine(n, v);
      && NextLine(line + rest) == Cutting(line, rest) && line + rest != [] && !IsBlank(line) && Starts(line, n)
      && line[|Prefix(n)|..] == " " + v + "\r\n" && (IsContinuation(line) <==> IsContinuation(n))
  {
    var line := FieldLine(n, v);
    assert line[|n|] == ':';
    assert Lower(line)[..|n| + 1] == Prefix(n);
    Recut(line, rest);
  }

  lemma WrittenReads(line: Bytes, rest: Bytes, n: Bytes, v: Bytes)
    requires NextLine(line + rest) == Cutting(line, rest) && line + rest != [] && !IsBlank(line) && Starts(line, n)
    requires line[|Prefix(n)|..] == " " + v + "\r\n"
    ensures Value(line + rest, n) == Trim(Trim(v) + Unfolded(rest))
  {
    ValuePassed(line + rest, n);
    TrimAround(" ", v, "\r\n");
  }

  lemma WrittenValue(raw: Bytes, n: Bytes, v: Bytes)
    requires Without(n, '\n') && Without(v, '\n')
    ensures Value(With(raw, n, v), n) == Trim(Trim(v) + Unfolded(raw))
  {
    var x := Removed(raw, n, false);
    WrittenLine(n, v, x);
    WrittenReads(FieldLine(n, v), x, n, v);
    UnfoldedKept(raw, n);
  }

  /** What SetHeader wrote reads back, trimmed, exactly when the text did not start with folded
      text of its own: such lines would be folded into the field. */
  lemma SetReadsBackIff(raw: Bytes, n: Bytes, v: Bytes)
    requires Without(n, '\n') && Without(v, '\n')
    ensures Value(With(raw, n, v), n) == Trim(v) <==> AllSpace(Unfolded(raw))
  {
    WrittenValue(raw, n, v);
    var p, q := TrimCut(v);
    AppendTrimsIff(Trim(v), Unfolded(raw));
  }

  lemma Rewritten(raw: Bytes, n: Bytes, v: Bytes)
    requires Without(n, '\n') && Without(v, '\n') && !IsContinuation(n)
    ensures Removed(With(raw, n, v), n, false) == Removed(raw, n, true)
  {
    var x := Removed(raw, n, false);
    WrittenLine(n, v, x);
    RemovedStep(FieldLine(n, v) + x, n, false);
    TwoPasses(raw, n, n, false, true);
    BothOfOne(raw, n, true);
  }

  lemma SameDropIff(raw: Bytes, n: Bytes)
    ensures Removed(raw, n, true) == Removed(raw, n, false) <==> !IsContinuation(raw)
  {
    if raw != [] {
      assert NextLine(raw).line[0] == raw[0];
      if !IsBlank(NextLine(raw).line) { RemovedStep(raw, n, true); RemovedStep(raw, n, false); }
      if IsContinuation(raw) { StartsClean(raw, n, true); }
    }
  }

  lemma SamePrefix(a: Bytes, x: Bytes, y: Bytes)
    ensures a + x == a + y <==> x == y
  {
    Seam(a, x);
    Seam(a, y);
  }

  /** The last write wins, exactly when the text does not start with a folded line. */
  lemma LastWriteWinsIff(raw: Bytes, n: Bytes, v: Bytes, w: Bytes)
    requires Without(n, '\n') && Without(v, '\n') && !IsContinuation(n)
    ensures With(With(raw, n, v), n, w) == With(raw, n, w) <==> !IsContinuation(raw)
  {
    Rewritten(raw, n, v);
    SameDropIff(raw, n);
    SamePrefix(FieldLine(n, w), Removed(raw, n, true), Removed(raw, n, false));
  }

  /** Setting a field leaves the body and the value of every other field alone. */
  lemma SetKeepsTheRest(raw: Bytes, m: Bytes, v: Bytes, n: Bytes)
    requires Without(m, '\n') && Without(v, '\n')
    ensures Body(With(raw, m, v)) == Body(raw)
    ensures Apart(m, n) && !IsContinuation(n) ==> Value(With(raw, m, v), n) == Value(raw, n)
  {
    var x := Removed(raw, m, false);
    WrittenLine(m, v, x);
    RemoveKeepsBody(raw, m, false);
    if Apart(m, n) && !IsContinuation(n) {
      OneField(FieldLine(m, v), m, n);
      RemoveKeepsOthers(raw, m, n, false);
    }
  }
}
