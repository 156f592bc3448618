/** Streams that end early: between two lines, or inside one. A line is its text, so that what is
    left of a cut one is known. */
module CutStreams {
  import opened Wrappers
  import opened Pricing
  import opened Extraction
  import opened BodyRewrite

  /** A line without `data:`, or a data line's payload. */
  datatype TextLine = NoData | Data(payload: seq<Token>)

  /** What the loop decodes a line to: an object's members, each key with its last value. Any other
      payload has no usage block. `value` decodes the text of a member's value. */
  ghost function Read(line: TextLine, value: Raw -> Json): Line {
    if line.Data? && IsObject(line.payload) then
      var pairs :| line.payload == Text(pairs);
      Some(Obj(map k | k in Firsts(pairs) :: value(LastValue(pairs, k))))
    else None
  }

  ghost function ReadAll(stream: seq<TextLine>, value: Raw -> Json): seq<Line> {
    seq(|stream|, i requires 0 <= i < |stream| => Read(stream[i], value))
  }

  /** What can be left of a line cut inside: less than its `data:`, or some tokens of its payload and
      perhaps a piece of the next one. A closing brace has no pieces. */
  ghost predicate Beginning(part: TextLine, whole: TextLine) {
    part.NoData? || (whole.Data? && exists k, piece :: BeginsAt(part.payload, whole.payload, k, piece))
  }

  ghost predicate BeginsAt(part: seq<Token>, whole: seq<Token>, k: nat, piece: seq<Token>) {
    k < |whole| && part == whole[..k] + piece && |piece| <= 1 && Close !in piece
  }

  /** A stream that ends after its first `n` lines, or inside the next one. */
  ghost predicate IsCut(stream: seq<TextLine>, n: nat, cut: seq<TextLine>) {
    && n <= |stream|
    && (cut == stream[..n]
        || (n < |stream| && |cut| == n + 1 && cut[..n] == stream[..n] && Beginning(cut[n], stream[n])))
  }

  // ---------------------------------------------------------------------------
  // What is left of a line
  // ---------------------------------------------------------------------------

  /** No proper beginning of the payload is an object. */
  ghost predicate Solid(line: TextLine) {
    line.Data? ==> forall k :: 0 <= k < |line.payload| ==> !IsObject(line.payload[..k])
  }

  /** Every line that decodes to an object is solid. */
  lemma ObjectIsSolid(line: TextLine)
    requires line.Data? && IsObject(line.payload)
    ensures Solid(line)
  {
    forall k | 0 <= k < |line.payload|
      ensures !IsObject(line.payload[..k])
    {
      BeginningIsNoObject(line.payload, k);
    }
  }

  lemma PieceEndsNoObject(body: seq<Token>, piece: Token)
    requires piece != Close
    ensures !IsObject(body + [piece])
  {
    ObjectShape(body + [piece], 1);
  }

  /** What is left of a line reads as nothing or is a proper beginning of its payload that is an
      object. */
  lemma BeginningReads(part: TextLine, whole: TextLine, value: Raw -> Json) returns (k: nat)
    requires Beginning(part, whole)
    ensures Read(part, value).None? ||
              (whole.Data? && k < |whole.payload| && part == Data(whole.payload[..k]) && IsObject(whole.payload[..k]))
  {
    k := 0;
    if part.Data? {
      var piece;
      k, piece :| BeginsAt(part.payload, whole.payload, k, piece);
      if piece == [] {
        assert part.payload == whole.payload[..k];
      } else {
        assert piece == [piece[0]];
        PieceEndsNoObject(whole.payload[..k], piece[0]);
      }
    }
  }

  // ---------------------------------------------------------------------------
  // Lines that change nothing
  // ---------------------------------------------------------------------------

  lemma {:induction false} LastOfPrefix(lines: seq<Line>, n: nat, has: Line -> bool)
    requires n <= |lines| && forall k :: n <= k < |lines| ==> !has(lines[k])
    ensures Last(lines, has) == Last(lines[..n], has)
  {
    if n == |lines| {
      assert lines[..n] == lines;
    } else {
      var front := lines[..|lines| - 1];
      assert front[..n] == lines[..n];
      LastOfPrefix(front, n, has);
    }
  }

  lemma NextOfNothing(s: State, l: Line)
    requires BlockOf(l).None? && s.r.usage.output >= 0.0
    ensures Next(s, l) == s
  {
  }

  lemma LastStep(lines: seq<Line>, l: Line)
    ensures SseUsage(lines + [l]) ==
              var t := Next(StateAt(lines, |lines|), l); if t.seen then Some(t.r) else None
    ensures SseUsage(lines) == var s := StateAt(lines, |lines|); if s.seen then Some(s.r) else None
    ensures StateAt(lines, |lines|).r.usage.output >= 0.0
  {
    var more := lines + [l];
    assert more[..|lines|] == lines == lines[..|lines|] && more[..|lines| + 1] == more;
    StreamStep(more, |lines|);
  }

  /** A line without a usage block changes nothing. */
  lemma EmptyLineIsNothing(lines: seq<Line>, l: Line)
    requires BlockOf(l).None?
    ensures SseUsage(lines + [l]) == SseUsage(lines)
  {
    LastStep(lines, l);
    NextOfNothing(StateAt(lines, |lines|), l);
  }

  ghost predicate ReportsNoMore(a: Option<Reported>, b: Option<Reported>) {
    a.Some? ==> b.Some? && a.value.usage.output <= b.value.usage.output
  }

  lemma QuietLineReportsNothing(lines: seq<Line>, l: Line)
    requires !CarriesUsage(l)
    ensures ReportsNoMore(SseUsage(lines + [l]), SseUsage(lines))
  {
    LastStep(lines, l);
  }

  lemma PrefixReportsNoMore(lines: seq<Line>, n: nat)
    requires n <= |lines|
    ensures ReportsNoMore(SseUsage(lines[..n]), SseUsage(lines))
  {
    assert forall l :: l in lines[..n] ==> l in lines;
  }

  lemma PrefixHasInput(lines: seq<Line>, n: nat)
    requires n <= |lines| && forall k :: n <= k < |lines| ==> !HasInput(lines[k])
    ensures LastInput(lines) == LastInput(lines[..n]) && LastWrite(lines) == LastWrite(lines[..n])
  {
    LastOfPrefix(lines, n, HasInput);
    LastOfPrefix(lines, n, HasWrite);
  }

  lemma ReadsOfPrefix(stream: seq<TextLine>, n: nat, value: Raw -> Json)
    requires n <= |stream|
    ensures ReadAll(stream[..n], value) == ReadAll(stream, value)[..n]
  {
  }

  lemma ReadsOfSnoc(stream: seq<TextLine>, line: TextLine, value: Raw -> Json)
    ensures ReadAll(stream + [line], value) == ReadAll(stream, value) + [Read(line, value)]
  {
  }

  // ---------------------------------------------------------------------------
  // Main results
  // ---------------------------------------------------------------------------

  /** A cut inside a solid line is as good as one before it. */
  lemma CutIsPrefix(stream: seq<TextLine>, n: nat, cut: seq<TextLine>, value: Raw -> Json)
    requires IsCut(stream, n, cut) && (n < |stream| ==> Solid(stream[n]))
    ensures SseUsage(ReadAll(cut, value)) == SseUsage(ReadAll(stream, value)[..n])
  {
    ReadsOfPrefix(stream, n, value);
    if cut != stream[..n] {
      var k := BeginningReads(cut[n], stream[n], value);
      assert cut == stream[..n] + [cut[n]];
      ReadsOfSnoc(stream[..n], cut[n], value);
      EmptyLineIsNothing(ReadAll(stream[..n], value), Read(cut[n], value));
    }
  }

  /** A stream cut between two lines, or inside one that is solid, as every line that decodes to an
      object is, never reports more output than the whole stream, nor usage where the whole reports
      none; once no later line carries input, the other buckets are the whole's. */
  lemma CutStreamReportsNoMore(stream: seq<TextLine>, n: nat, cut: seq<TextLine>, value: Raw -> Json)
    requires IsCut(stream, n, cut) && (n < |stream| ==> Solid(stream[n]))
    ensures var lines, part := ReadAll(stream, value), SseUsage(ReadAll(cut, value));
            && ReportsNoMore(part, SseUsage(lines))
            && (part.Some? && (forall k :: n <= k < |lines| ==> !HasInput(lines[k])) ==>
                  part.value.usage == SseUsage(lines).value.usage.(output := part.value.usage.output))
  {
    var lines := ReadAll(stream, value);
    CutIsPrefix(stream, n, cut, value);
    PrefixReportsNoMore(lines, n);
    if forall k :: n <= k < |lines| ==> !HasInput(lines[k]) {
      PrefixHasInput(lines, n);
    }
  }

  /** So at a model's rates it costs no more. */
  lemma CutStreamCostsNoMore(m: Rates, stream: seq<TextLine>, n: nat, cut: seq<TextLine>, value: Raw -> Json)
    requires RatesOk(m) && IsCut(stream, n, cut) && (n < |stream| ==> Solid(stream[n]))
    requires SseUsage(ReadAll(cut, value)).Some?
    requires var lines := ReadAll(stream, value); forall k :: n <= k < |lines| ==> !HasInput(lines[k])
    ensures var whole := SseUsage(ReadAll(stream, value));
            whole.Some? && Cost(m, SseUsage(ReadAll(cut, value)).value.usage) <= Cost(m, whole.value.usage)
  {
    CutStreamReportsNoMore(stream, n, cut, value);
    CostOfMoreOutput(m, SseUsage(ReadAll(cut, value)).value.usage, SseUsage(ReadAll(stream, value)).value.usage);
  }

  /** An object that carries usage, with anything after it on its line: the whole line is no JSON. */
  lemma JunkHidesUsage(line: TextLine, k: nat, value: Raw -> Json)
    requires line.Data? && k < |line.payload| && CarriesUsage(Read(Data(line.payload[..k]), value))
    ensures Beginning(Data(line.payload[..k]), line)
    ensures SseUsage(ReadAll([Data(line.payload[..k])], value)).Some? && SseUsage(ReadAll([line], value)).None?
  {
    assert BeginsAt(line.payload[..k], line.payload, k, []);
    if IsObject(line.payload) {
      BeginningIsNoObject(line.payload, k);
    }
    OneLine(Read(Data(line.payload[..k]), value));
    OneLine(Read(line, value));
    assert ReadAll([Data(line.payload[..k])], value) == [Read(Data(line.payload[..k]), value)];
    assert ReadAll([line], value) == [Read(line, value)];
  }

  lemma QuietCutReportsNoMore(before: seq<TextLine>, part: TextLine, line: TextLine, value: Raw -> Json)
    requires !CarriesUsage(Read(part, value))
    ensures ReportsNoMore(SseUsage(ReadAll(before + [part], value)), SseUsage(ReadAll(before + [line], value)))
  {
    var lines := ReadAll(before, value);
    ReadsOfSnoc(before, part, value);
    ReadsOfSnoc(before, line, value);
    QuietLineReportsNothing(lines, Read(part, value));
    PrefixReportsNoMore(lines + [Read(line, value)], |lines|);
    assert (lines + [Read(line, value)])[..|lines|] == lines;
  }

  /** Exactly which lines may be cut: whatever came before, a stream cut inside a last line reports no
      more than with all of it if and only if no proper beginning of the line is an object that
      carries usage. */
  lemma CutLineIsSafeIff(line: TextLine, value: Raw -> Json)
    ensures (forall before, part :: Beginning(part, line) ==>
               ReportsNoMore(SseUsage(ReadAll(before + [part], value)), SseUsage(ReadAll(before + [line], value))))
        <==> !exists k :: line.Data? && 0 <= k < |line.payload| && CarriesUsage(Read(Data(line.payload[..k]), value))
  {
    if k :| line.Data? && 0 <= k < |line.payload| && CarriesUsage(Read(Data(line.payload[..k]), value)) {
      JunkHidesUsage(line, k, value);
      assert [] + [Data(line.payload[..k])] == [Data(line.payload[..k])] && [] + [line] == [line];
    } else {
      forall before, part | Beginning(part, line)
        ensures ReportsNoMore(SseUsage(ReadAll(before + [part], value)), SseUsage(ReadAll(before + [line], value)))
      {
        var k := BeginningReads(part, line, value);
        QuietCutReportsNoMore(before, part, line, value);
      }
    }
  }

  /** Such a line: `{"usage":{"completion_tokens":5}}x`. Cut before its `x` it reports 5, whole it
      reports nothing. */
  lemma CutCanReportMore() returns (line: TextLine, part: TextLine, value: Raw -> Json)
    ensures Beginning(part, line) && SseUsage(ReadAll([line], value)).None?
    ensures var r := SseUsage(ReadAll([part], value)); r.Some? && r.value.usage.output == 5.0
  {
    var block := NotString("{\"completion_tokens\":5}");
    var pairs := [Member("usage", block)];
    value := (r: Raw) => if r == block then Obj(map["completion_tokens" := Num(5.0)]) else OtherValue;
    line := Data(Text(pairs) + [Value(NotString("x"))]);
    part := Data(line.payload[..|Text(pairs)|]);
    assert part.payload == Text(pairs);
    ReadOfOne(pairs[0], value);
    JunkHidesUsage(line, |Text(pairs)|, value);
    OneLine(Read(part, value));
    assert ReadAll([part], value) == [Read(part, value)];
  }

  lemma ReadOfOne(m: Member, value: Raw -> Json)
    ensures Read(Data(Text([m])), value) == Some(Obj(map[m.key := value(m.value)]))
  {
    forall pairs | Text([m]) == Text(pairs)
      ensures pairs == [m]
    {
      TextIsInjective(pairs, [m]);
    }
    assert Firsts([m]) == [m.key] by { assert [m][..0] == []; }
    assert IsObject(Text([m]));
    assert (map k | k in Firsts([m]) :: value(LastValue([m], k))) == map[m.key := value(m.value)];
  }
}
