/** What both extractions read, said on the JSON alone: where a usage block is, which of its members
    fill which bucket, and how the events of a stream combine. */
module UsageShapes {
  import opened Wrappers
  import opened Pricing
  import opened Extraction

  // ---------------------------------------------------------------------------
  // One value
  // ---------------------------------------------------------------------------

  /** `u` is the value's usage block: its `usage`, or its `message.usage` when `usage` is missing or
      null. */
  ghost predicate Carries(obj: Json, u: Block) {
    && obj.Obj?
    && if "usage" in obj.members && obj.members["usage"] != Null then obj.members["usage"] == Obj(u)
       else
         && "message" in obj.members && obj.members["message"].Obj?
         && "usage" in obj.members["message"].members && obj.members["message"].members["usage"] == Obj(u)
  }

  lemma CarriedIsTheBlock(obj: Json, u: Block)
    ensures Carries(obj, u) <==> UsageBlock(obj) == Some(u)
  {
  }

  ghost predicate IsNumber(u: Block, key: string) {
    key in u && u[key].Num?
  }

  /** A member that is no number counts as 0. */
  ghost function Number(u: Block, key: string): real {
    if IsNumber(u, key) then u[key].value else 0.0
  }

  ghost function CostIn(u: Block): Option<real> {
    if IsNumber(u, "cost") then Some(u["cost"].value) else None
  }

  ghost function Larger(a: real, b: real): real {
    if a < b then b else a
  }

  /** The cached share of an OpenAI prompt: the details' count, or the cache hits when that is none. */
  ghost function CachedShare(u: Block): real {
    var details := if "prompt_tokens_details" in u && u["prompt_tokens_details"].Obj?
                   then Number(u["prompt_tokens_details"].members, "cached_tokens") else 0.0;
    if details == 0.0 then Number(u, "prompt_cache_hit_tokens") else details
  }

  /** The completion, or the total's rest when that is more. */
  ghost function OpenAiOutput(u: Block): real {
    Larger(Number(u, "completion_tokens"), Number(u, "total_tokens") - Number(u, "prompt_tokens"))
  }

  /** An Anthropic body fills the four buckets from its four named counts. */
  lemma AnthropicBody(obj: Json, u: Block)
    requires Carries(obj, u) && IsNumber(u, "input_tokens")
    ensures UsageFromObject(obj) ==
              Some(Reported(Usage(Number(u, "input_tokens"), Number(u, "output_tokens"),
                                  Number(u, "cache_read_input_tokens"), Number(u, "cache_creation_input_tokens")),
                            CostIn(u)))
  {
    CarriedIsTheBlock(obj, u);
  }

  /** An OpenAI body's prompt includes its cached share, which is moved to its own bucket. */
  lemma OpenAiBody(obj: Json, u: Block)
    requires Carries(obj, u) && IsNumber(u, "prompt_tokens") && !IsNumber(u, "input_tokens")
    ensures UsageFromObject(obj) ==
              Some(Reported(Usage(Larger(0.0, Number(u, "prompt_tokens") - CachedShare(u)), OpenAiOutput(u),
                                  CachedShare(u), 0.0),
                            CostIn(u)))
  {
    CarriedIsTheBlock(obj, u);
  }

  /** Any other body has no usage. */
  lemma OtherBody(obj: Json)
    requires forall u :: Carries(obj, u) ==> !IsNumber(u, "input_tokens") && !IsNumber(u, "prompt_tokens")
    ensures UsageFromObject(obj) == None
  {
    if UsageBlock(obj).Some? {
      CarriedIsTheBlock(obj, UsageBlock(obj).value);
    }
  }

  // ---------------------------------------------------------------------------
  // Streams
  // ---------------------------------------------------------------------------

  /** The event decodes to a value that carries the block. */
  ghost predicate Event(line: Line, u: Block) {
    line.Some? && Carries(line.value, u)
  }

  ghost predicate HasEvent(line: Line, key: string) {
    exists u :: Event(line, u) && IsNumber(u, key)
  }

  lemma EventIsTheBlock(line: Line, u: Block)
    ensures Event(line, u) <==> BlockOf(line) == Some(u)
  {
    if line.Some? {
      CarriedIsTheBlock(line.value, u);
    }
  }

  lemma HasEventIs(line: Line, key: string)
    ensures HasEvent(line, key) <==> BlockOf(line).Some? && Get(BlockOf(line).value, key).Num?
  {
    if BlockOf(line).Some? {
      EventIsTheBlock(line, BlockOf(line).value);
    }
    if u :| Event(line, u) && IsNumber(u, key) {
      EventIsTheBlock(line, u);
    }
  }

  lemma EventInputs(line: Line, u: Block)
    requires Event(line, u)
    ensures HasInput(line) <==> IsNumber(u, "input_tokens") || IsNumber(u, "prompt_tokens")
    ensures HasWrite(line) <==> IsNumber(u, "input_tokens")
    ensures HasCost(line) <==> IsNumber(u, "cost")
    ensures IsNumber(u, "prompt_tokens") ==>
              InputOf(line) == (Larger(0.0, Number(u, "prompt_tokens") - CachedShare(u)), CachedShare(u))
    ensures IsNumber(u, "input_tokens") && !IsNumber(u, "prompt_tokens") ==>
              InputOf(line) == (Number(u, "input_tokens"), Number(u, "cache_read_input_tokens"))
    ensures IsNumber(u, "input_tokens") ==> WriteOf(line) == Number(u, "cache_creation_input_tokens")
  {
    EventIsTheBlock(line, u);
  }

  /** What an event reports as output, at least 0. */
  ghost function EventOutput(u: Block): real {
    var out := Larger(0.0, Number(u, "output_tokens"));
    if !IsNumber(u, "completion_tokens") then out
    else Larger(out, if IsNumber(u, "prompt_tokens") then OpenAiOutput(u) else Number(u, "completion_tokens"))
  }

  lemma EventOutputIs(line: Line, u: Block)
    requires Event(line, u)
    ensures OutputOf(line) == EventOutput(u)
    ensures CarriesUsage(line) <==>
              || IsNumber(u, "input_tokens") || IsNumber(u, "prompt_tokens") || IsNumber(u, "completion_tokens")
              || Number(u, "output_tokens") > 0.0
  {
    EventIsTheBlock(line, u);
  }

  lemma LastIs(lines: seq<Line>, has: Line -> bool, k: nat)
    requires k < |lines| && has(lines[k]) && forall j :: k < j < |lines| ==> !has(lines[j])
    ensures Last(lines, has) == Some(k)
  {
  }

  /** A stream's input and cache reads are those of its last event that counts a prompt; its cache
      writes those of its last Anthropic one. */
  lemma StreamInput(lines: seq<Line>, k: nat, u: Block)
    requires k < |lines| && Event(lines[k], u) && (IsNumber(u, "input_tokens") || IsNumber(u, "prompt_tokens"))
    requires forall j :: k < j < |lines| ==>
               !HasEvent(lines[j], "input_tokens") && !HasEvent(lines[j], "prompt_tokens")
    ensures SseUsage(lines).Some?
    ensures var r := SseUsage(lines).value.usage;
            && (IsNumber(u, "prompt_tokens") ==>
                  r.input == Larger(0.0, Number(u, "prompt_tokens") - CachedShare(u)) && r.cacheRead == CachedShare(u))
            && (!IsNumber(u, "prompt_tokens") ==>
                  r.input == Number(u, "input_tokens") && r.cacheRead == Number(u, "cache_read_input_tokens"))
            && (IsNumber(u, "input_tokens") ==> r.cacheWrite == Number(u, "cache_creation_input_tokens"))
  {
    EventInputs(lines[k], u);
    EventOutputIs(lines[k], u);
    forall j | k < j < |lines|
      ensures !HasInput(lines[j]) && !HasWrite(lines[j])
    {
      HasEventIs(lines[j], "input_tokens");
      HasEventIs(lines[j], "prompt_tokens");
    }
    LastIs(lines, HasInput, k);
    if IsNumber(u, "input_tokens") {
      LastIs(lines, HasWrite, k);
    }
    assert lines[k] in lines;
  }

  /** Its output is the largest any event reports. */
  lemma StreamOutput(lines: seq<Line>)
    requires SseUsage(lines).Some?
    ensures var out := SseUsage(lines).value.usage.output;
            && out >= 0.0
            && (forall j, u :: 0 <= j < |lines| && Event(lines[j], u) ==> EventOutput(u) <= out)
            && (out == 0.0 || exists j, u :: 0 <= j < |lines| && Event(lines[j], u) && EventOutput(u) == out)
  {
    var out := SseUsage(lines).value.usage.output;
    assert out == Largest(lines);
    forall j, u | 0 <= j < |lines| && Event(lines[j], u)
      ensures EventOutput(u) <= out
    {
      EventOutputIs(lines[j], u);
      assert lines[j] in lines;
    }
    if out > 0.0 {
      var l :| l in lines && OutputOf(l) == out;
      var j :| 0 <= j < |lines| && lines[j] == l;
      EventIsTheBlock(l, BlockOf(l).value);
      EventOutputIs(l, BlockOf(l).value);
    }
  }

  /** There is usage exactly when some event counts a prompt or a completion, or some output. */
  lemma StreamIsMetered(lines: seq<Line>)
    ensures SseUsage(lines).Some? <==>
              exists j, u :: 0 <= j < |lines| && Event(lines[j], u)
                && (IsNumber(u, "input_tokens") || IsNumber(u, "prompt_tokens") || IsNumber(u, "completion_tokens")
                    || Number(u, "output_tokens") > 0.0)
  {
    if Seen(lines) {
      var l :| l in lines && CarriesUsage(l);
      var j :| 0 <= j < |lines| && lines[j] == l;
      EventIsTheBlock(l, BlockOf(l).value);
      EventOutputIs(l, BlockOf(l).value);
    }
    forall j, u | 0 <= j < |lines| && Event(lines[j], u)
      ensures CarriesUsage(lines[j]) <==>
                || IsNumber(u, "input_tokens") || IsNumber(u, "prompt_tokens") || IsNumber(u, "completion_tokens")
                || Number(u, "output_tokens") > 0.0
    {
      EventOutputIs(lines[j], u);
      assert lines[j] in lines;
    }
  }

  /** Event `k` is the last that has a cost. */
  ghost predicate LastPriced(lines: seq<Line>, k: nat, u: Block) {
    && k < |lines| && Event(lines[k], u) && IsNumber(u, "cost")
    && forall j :: k < j < |lines| ==> !HasEvent(lines[j], "cost")
  }

  /** Its cost is that of the last event that has one. */
  lemma StreamCost(lines: seq<Line>)
    requires SseUsage(lines).Some?
    ensures var cost := SseUsage(lines).value.cost;
            && (cost.None? <==> forall j :: 0 <= j < |lines| ==> !HasEvent(lines[j], "cost"))
            && forall k: nat, u: Block :: LastPriced(lines, k, u) ==> cost == CostIn(u)
  {
    forall j | 0 <= j < |lines|
      ensures HasCost(lines[j]) <==> HasEvent(lines[j], "cost")
    {
      HasEventIs(lines[j], "cost");
    }
    forall k: nat, u: Block | LastPriced(lines, k, u)
      ensures SseUsage(lines).value.cost == CostIn(u)
    {
      EventInputs(lines[k], u);
      EventIsTheBlock(lines[k], u);
      LastIs(lines, HasCost, k);
    }
  }

  lemma AnthropicOutput(lines: seq<Line>)
    requires SseUsage(lines).Some?
    requires forall j, u :: 0 <= j < |lines| && Event(lines[j], u) ==> !IsNumber(u, "completion_tokens")
    ensures var out := SseUsage(lines).value.usage.output;
            && (forall j, u :: 0 <= j < |lines| && Event(lines[j], u) ==> Number(u, "output_tokens") <= out)
            && (out == 0.0 ||
                exists j, u :: 0 <= j < |lines| && Event(lines[j], u) && Number(u, "output_tokens") == out)
  {
    StreamOutput(lines);
    var out := SseUsage(lines).value.usage.output;
    forall j, u | 0 <= j < |lines| && Event(lines[j], u)
      ensures Number(u, "output_tokens") <= out
    {
      assert EventOutput(u) <= out;
    }
    if out != 0.0 {
      var j, u :| 0 <= j < |lines| && Event(lines[j], u) && EventOutput(u) == out;
      assert Number(u, "output_tokens") == out;
    }
  }

  /** An Anthropic stream: one event with the input, then any number of others with output alone. It
      reads as the start's input, reads and writes, and the largest output. */
  lemma AnthropicStream(lines: seq<Line>, k: nat, start: Block)
    requires k < |lines| && Event(lines[k], start) && IsNumber(start, "input_tokens")
    requires forall j, u :: 0 <= j < |lines| && Event(lines[j], u) ==>
               && !IsNumber(u, "prompt_tokens") && !IsNumber(u, "completion_tokens")
               && (j != k ==> !IsNumber(u, "input_tokens"))
    ensures SseUsage(lines).Some?
    ensures var r := SseUsage(lines).value.usage;
            && r.input == Number(start, "input_tokens")
            && r.cacheRead == Number(start, "cache_read_input_tokens")
            && r.cacheWrite == Number(start, "cache_creation_input_tokens")
            && (forall j, u :: 0 <= j < |lines| && Event(lines[j], u) ==> Number(u, "output_tokens") <= r.output)
            && (r.output == 0.0 ||
                exists j, u :: 0 <= j < |lines| && Event(lines[j], u) && Number(u, "output_tokens") == r.output)
  {
    StreamInput(lines, k, start);
    AnthropicOutput(lines);
  }
}
