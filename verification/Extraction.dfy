/** Usage out of an upstream response: one JSON body, or a stream of events. */
module Extraction {
  import opened Wrappers
  import opened Pricing

  /** A decoded JSON value; strings, booleans and arrays are all `OtherValue`. */
  datatype Json = Null | Num(value: real) | Obj(members: map<string, Json>) | OtherValue

  type Block = map<string, Json>

  function Get(m: Block, key: string): Json {
    if key in m then m[key] else Null
  }

  function Field(v: Json, key: string): Json {
    if v.Obj? then Get(v.members, key) else Null
  }

  function NumOf(v: Json): real {
    if v.Num? then v.value else 0.0
  }

  function MaxReal(a: real, b: real): real {
    if a >= b then a else b
  }

  /** `usage`, else `message.usage`, when it is an object. */
  function UsageBlock(obj: Json): Option<Block> {
    var u := Field(obj, "usage");
    var v := if u.Null? then Field(Field(obj, "message"), "usage") else u;
    if v.Obj? then Some(v.members) else None
  }

  function ProviderCost(u: Block): Option<real> {
    var c := Get(u, "cost");
    if c.Num? then Some(c.value) else None
  }

  function CachedPromptTokens(u: Block): real {
    var c := NumOf(Field(Get(u, "prompt_tokens_details"), "cached_tokens"));
    if c != 0.0 then c else NumOf(Get(u, "prompt_cache_hit_tokens"))
  }

  function CompletionWithHiddenThinking(u: Block): real {
    var completion := NumOf(Get(u, "completion_tokens"));
    completion + MaxReal(0.0, NumOf(Get(u, "total_tokens")) - NumOf(Get(u, "prompt_tokens")) - completion)
  }

  datatype Reported = Reported(usage: Usage, cost: Option<real>)

  /** The body of a non-streaming answer. */
  function UsageFromObject(obj: Json): Option<Reported> {
    match UsageBlock(obj)
    case None => None
    case Some(u) =>
      if Get(u, "input_tokens").Num? then
        Some(Reported(Usage(Get(u, "input_tokens").value, NumOf(Get(u, "output_tokens")),
                            NumOf(Get(u, "cache_read_input_tokens")), NumOf(Get(u, "cache_creation_input_tokens"))),
                      ProviderCost(u)))
      else if Get(u, "prompt_tokens").Num? then
        var cached := CachedPromptTokens(u);
        Some(Reported(Usage(MaxReal(0.0, Get(u, "prompt_tokens").value - cached), CompletionWithHiddenThinking(u),
                            cached, 0.0),
                      ProviderCost(u)))
      else None
  }

  // ---------------------------------------------------------------------------
  // Streams: what each bucket of the result must be
  // ---------------------------------------------------------------------------

  /** A line of the stream; None when it is not a data line, is blank or [DONE], or is not JSON. */
  type Line = Option<Json>

  function BlockOf(line: Line): Option<Block> {
    match line
    case None => None
    case Some(obj) => UsageBlock(obj)
  }

  predicate HasInput(line: Line) {
    var u := BlockOf(line);
    u.Some? && (Get(u.value, "input_tokens").Num? || Get(u.value, "prompt_tokens").Num?)
  }

  /** Uncached input and cache reads of a line that has them; the OpenAI shape wins. */
  function InputOf(line: Line): (real, real)
    requires HasInput(line)
  {
    var u := BlockOf(line).value;
    if Get(u, "prompt_tokens").Num? then
      (MaxReal(0.0, Get(u, "prompt_tokens").value - CachedPromptTokens(u)), CachedPromptTokens(u))
    else (Get(u, "input_tokens").value, NumOf(Get(u, "cache_read_input_tokens")))
  }

  predicate HasWrite(line: Line) {
    var u := BlockOf(line);
    u.Some? && Get(u.value, "input_tokens").Num?
  }

  function WriteOf(line: Line): real
    requires HasWrite(line)
  {
    NumOf(Get(BlockOf(line).value, "cache_creation_input_tokens"))
  }

  /** The most output a line reports, 0 when it reports none. */
  function OutputOf(line: Line): real {
    match BlockOf(line)
    case None => 0.0
    case Some(u) =>
      var out := MaxReal(0.0, NumOf(Get(u, "output_tokens")));
      var c := Get(u, "completion_tokens");
      if !c.Num? then out
      else MaxReal(out, if Get(u, "prompt_tokens").Num? then CompletionWithHiddenThinking(u) else c.value)
  }

  predicate HasCost(line: Line) {
    var u := BlockOf(line);
    u.Some? && ProviderCost(u.value).Some?
  }

  /** Whether a line alone makes the stream metered. */
  predicate CarriesUsage(line: Line) {
    var u := BlockOf(line);
    && u.Some?
    && (HasInput(line) || NumOf(Get(u.value, "output_tokens")) > 0.0 || Get(u.value, "completion_tokens").Num?)
  }

  function Largest(lines: seq<Line>): (m: real)
    ensures m >= 0.0
    ensures forall l :: l in lines ==> OutputOf(l) <= m
    ensures m == 0.0 || exists l :: l in lines && OutputOf(l) == m
  {
    if lines == [] then 0.0
    else
      var n := |lines| - 1;
      var m := Largest(lines[..n]);
      assert lines == lines[..n] + [lines[n]];
      MaxReal(m, OutputOf(lines[n]))
  }

  /** The last line with `has`, if any: its index. */
  function Last(lines: seq<Line>, has: Line -> bool): (i: Option<nat>)
    ensures i.Some? ==> i.value < |lines| && has(lines[i.value])
    ensures forall k :: (if i.Some? then i.value < k else 0 <= k) && k < |lines| ==> !has(lines[k])
  {
    if lines == [] then None
    else if has(lines[|lines| - 1]) then Some(|lines| - 1)
    else Last(lines[..|lines| - 1], has)
  }

  predicate Seen(lines: seq<Line>) {
    exists l :: l in lines && CarriesUsage(l)
  }

  function LastInput(lines: seq<Line>): (real, real) {
    match Last(lines, HasInput)
    case Some(i) => InputOf(lines[i])
    case None => (0.0, 0.0)
  }

  function LastWrite(lines: seq<Line>): real {
    match Last(lines, HasWrite)
    case Some(i) => WriteOf(lines[i])
    case None => 0.0
  }

  function LastCost(lines: seq<Line>): Option<real> {
    match Last(lines, HasCost)
    case Some(i) => ProviderCost(BlockOf(lines[i]).value)
    case None => None
  }

  /** The result bucket by bucket: input and cache from the last line that has them, the largest
      output, the last cost. */
  function StreamUsage(lines: seq<Line>): Reported {
    Reported(Usage(LastInput(lines).0, Largest(lines), LastInput(lines).1, LastWrite(lines)), LastCost(lines))
  }

  function SseUsage(lines: seq<Line>): Option<Reported> {
    if Seen(lines) then Some(StreamUsage(lines)) else None
  }

  lemma LargestStep(lines: seq<Line>, n: nat)
    requires n < |lines|
    ensures Largest(lines[..n + 1]) == MaxReal(Largest(lines[..n]), OutputOf(lines[n]))
  {
  }

  lemma LastInputStep(lines: seq<Line>, n: nat)
    requires n < |lines|
    ensures LastInput(lines[..n + 1]) == if HasInput(lines[n]) then InputOf(lines[n]) else LastInput(lines[..n])
  {
  }

  lemma LastWriteStep(lines: seq<Line>, n: nat)
    requires n < |lines|
    ensures LastWrite(lines[..n + 1]) == if HasWrite(lines[n]) then WriteOf(lines[n]) else LastWrite(lines[..n])
  {
  }

  lemma LastCostStep(lines: seq<Line>, n: nat)
    requires n < |lines|
    ensures LastCost(lines[..n + 1])
         == if HasCost(lines[n]) then ProviderCost(BlockOf(lines[n]).value) else LastCost(lines[..n])
  {
  }

  lemma SeenStep(lines: seq<Line>, n: nat)
    requires n < |lines|
    ensures Seen(lines[..n + 1]) <==> Seen(lines[..n]) || CarriesUsage(lines[n])
    ensures Largest(lines[..n]) > 0.0 ==> Seen(lines[..n])
  {
  }

  datatype State = State(seen: bool, r: Reported)

  function StateAt(lines: seq<Line>, n: nat): State
    requires n <= |lines|
  {
    State(Seen(lines[..n]), StreamUsage(lines[..n]))
  }

  /** What one line changes. */
  function Next(s: State, l: Line): State {
    var u := s.r.usage;
    State(s.seen || CarriesUsage(l),
          Reported(Usage(if HasInput(l) then InputOf(l).0 else u.input,
                         MaxReal(u.output, OutputOf(l)),
                         if HasInput(l) then InputOf(l).1 else u.cacheRead,
                         if HasWrite(l) then WriteOf(l) else u.cacheWrite),
                   if HasCost(l) then ProviderCost(BlockOf(l).value) else s.r.cost))
  }

  lemma StreamStep(lines: seq<Line>, n: nat)
    requires n < |lines|
    ensures StateAt(lines, n + 1) == Next(StateAt(lines, n), lines[n])
    ensures StateAt(lines, n).r.usage.output >= 0.0
    ensures StateAt(lines, n).r.usage.output > 0.0 ==> StateAt(lines, n).seen
  {
    SeenStep(lines, n);
    LargestStep(lines, n);
    LastInputStep(lines, n);
    LastWriteStep(lines, n);
    LastCostStep(lines, n);
  }

  /** The body of the event loop, on a line's usage block. */
  method Absorb(s: State, l: Line, u: Block) returns (t: State)
    requires BlockOf(l) == Some(u)
    requires s.r.usage.output >= 0.0 && (s.r.usage.output > 0.0 ==> s.seen)
    ensures t == Next(s, l)
  {
    var State(seen, Reported(Usage(input, output, read, write), cost)) := s;
    var v := Get(u, "input_tokens");
    if v.Num? {
      input := v.value;
      read := NumOf(Get(u, "cache_read_input_tokens"));
      write := NumOf(Get(u, "cache_creation_input_tokens"));
      seen := true;
    }
    v := Get(u, "prompt_tokens");
    if v.Num? {
      var cached := CachedPromptTokens(u);
      input := MaxReal(0.0, v.value - cached);
      read := cached;
      seen := true;
    }
    v := Get(u, "output_tokens");
    if v.Num? && v.value > output {
      output := v.value;
      seen := true;
    }
    v := Get(u, "completion_tokens");
    if v.Num? {
      var completion := v.value;
      if Get(u, "prompt_tokens").Num? {
        completion := CompletionWithHiddenThinking(u);
      }
      if completion > output {
        output := completion;
      }
      seen := true;
    }
    if ProviderCost(u).Some? {
      cost := ProviderCost(u);
    }
    t := State(seen, Reported(Usage(input, output, read, write), cost));
  }

  /** The event loop computes each bucket as `StreamUsage` says. */
  method ExtractUsageFromSSE(lines: seq<Line>) returns (r: Option<Reported>)
    ensures r == SseUsage(lines)
  {
    var s := State(false, Reported(Usage(0.0, 0.0, 0.0, 0.0), None));
    for n := 0 to |lines|
      invariant s == StateAt(lines, n)
    {
      StreamStep(lines, n);
      if lines[n].None? {
        continue;
      }
      var block := UsageBlock(lines[n].value);
      if block.None? {
        continue;
      }
      s := Absorb(s, lines[n], block.value);
    }
    assert lines[..|lines|] == lines;
    r := if s.seen then Some(s.r) else None;
  }

  // ---------------------------------------------------------------------------
  // One block read both ways
  // ---------------------------------------------------------------------------

  lemma OneLine(l: Line)
    ensures SseUsage([l]) ==
              if CarriesUsage(l) then Some(Next(State(false, Reported(Usage(0.0, 0.0, 0.0, 0.0), None)), l).r) else None
  {
  }

  /** An Anthropic block reads the same from a stream and from a body exactly when its output count
      is not negative. */
  lemma AnthropicBlockReadsTheSame(obj: Json, u: Block)
    requires UsageBlock(obj) == Some(u) && Get(u, "input_tokens").Num?
    requires !Get(u, "prompt_tokens").Num? && !Get(u, "completion_tokens").Num?
    ensures SseUsage([Some(obj)]) == UsageFromObject(obj) <==> NumOf(Get(u, "output_tokens")) >= 0.0
  {
    OneLine(Some(obj));
  }

  /** An OpenAI block does exactly when its completion count is there and the completion with hidden
      thinking is not negative, or it is missing and the total shows none either: a stream reads no
      output without a completion count, a body reads the total's surplus. */
  lemma OpenAiBlockReadsTheSame(obj: Json, u: Block)
    requires UsageBlock(obj) == Some(u) && Get(u, "prompt_tokens").Num?
    requires !Get(u, "input_tokens").Num? && !Get(u, "output_tokens").Num?
    ensures SseUsage([Some(obj)]) == UsageFromObject(obj) <==>
              var prompt, total := Get(u, "prompt_tokens").value, NumOf(Get(u, "total_tokens"));
              var c := Get(u, "completion_tokens");
              if c.Num? then c.value >= 0.0 || total >= prompt else total <= prompt
  {
    OneLine(Some(obj));
  }

  /** A block of neither shape is no usage in a body; a stream still counts its output. */
  lemma ShapelessBlock(obj: Json, u: Block)
    requires UsageBlock(obj) == Some(u) && !Get(u, "prompt_tokens").Num? && !Get(u, "input_tokens").Num?
    ensures UsageFromObject(obj) == None
    ensures SseUsage([Some(obj)]).Some? <==> Get(u, "completion_tokens").Num? || NumOf(Get(u, "output_tokens")) > 0.0
  {
    OneLine(Some(obj));
  }

  /** The buckets of an OpenAI block add up to its total, or to prompt plus completion where that is
      larger, exactly when no more is cached than was prompted. */
  lemma OpenAiBucketsAddUp(obj: Json, u: Block)
    requires UsageBlock(obj) == Some(u) && Get(u, "prompt_tokens").Num? && !Get(u, "input_tokens").Num?
    ensures var r, prompt := UsageFromObject(obj).value.usage, Get(u, "prompt_tokens").value;
            r.Prompt() + r.output == MaxReal(NumOf(Get(u, "total_tokens")), prompt + NumOf(Get(u, "completion_tokens")))
            <==> CachedPromptTokens(u) <= prompt
  {
  }
}
