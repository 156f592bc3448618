/** The cost of one request from its four token buckets and a model's rates, in its two
    implementations. Rates and token counts are reals, as the sources' numbers are. */
module Pricing {
  import opened Wrappers

  const PER := 1000000.0

  datatype Usage = Usage(input: real, output: real, cacheRead: real, cacheWrite: real) {
    /** All three input buckets. */
    function Prompt(): real {
      input + cacheRead + cacheWrite
    }
  }

  /** A long-context tier, which has every token rate. */
  datatype Tier = Tier(above: real, input: real, output: real, cacheRead: real, cacheWrite: real)

  /** USD per million tokens. */
  datatype Rates = Rates(input: real, output: real, cacheRead: Option<real>, cacheWrite: Option<real>,
                         perRequest: Option<real>, longContext: Option<Tier>)

  /** Four token rates and the flat charge, nothing left out. */
  datatype FullRates = FullRates(input: real, output: real, cacheRead: real, cacheWrite: real, perRequest: real)

  /** The rates below the tier, with the fallbacks for cache rates left out. */
  function BaseRates(m: Rates): FullRates {
    FullRates(m.input, m.output, m.cacheRead.GetOr(m.input * 0.1), m.cacheWrite.GetOr(m.input * 1.25),
              m.perRequest.GetOr(0.0))
  }

  function TierRates(m: Rates, t: Tier): FullRates {
    FullRates(t.input, t.output, t.cacheRead, t.cacheWrite, m.perRequest.GetOr(0.0))
  }

  function CostAt(r: FullRates, u: Usage): real {
    r.perRequest
    + (u.input * r.input + u.output * r.output + u.cacheRead * r.cacheRead + u.cacheWrite * r.cacheWrite) / PER
  }

  predicate InTier(m: Rates, u: Usage) {
    m.longContext.Some? && u.Prompt() > m.longContext.value.above
  }

  /** What a request costs: the tier's rates for the whole of it once its prompt is over. */
  function Cost(m: Rates, u: Usage): real {
    CostAt(if InTier(m, u) then TierRates(m, m.longContext.value) else BaseRates(m), u)
  }

  /** In millionths, at literal rates: the flat charge, and each bucket at its rate a million tokens;
      a missing cache rate is a tenth of the input's, or five quarters; past the tier's threshold the
      tier's rates hold for the whole request. */
  lemma CostPerMillion(m: Rates, u: Usage)
    ensures var flat := if m.perRequest.Some? then m.perRequest.value else 0.0;
            1000000.0 * (Cost(m, u) - flat) ==
              if m.longContext.Some? && u.input + u.cacheRead + u.cacheWrite > m.longContext.value.above then
                var t := m.longContext.value;
                u.input * t.input + u.output * t.output + u.cacheRead * t.cacheRead + u.cacheWrite * t.cacheWrite
              else
                u.input * m.input + u.output * m.output
                + u.cacheRead * (if m.cacheRead.Some? then m.cacheRead.value else m.input / 10.0)
                + u.cacheWrite * (if m.cacheWrite.Some? then m.cacheWrite.value else m.input * 5.0 / 4.0)
  {
  }

  lemma FullRatesPerMillion(r: FullRates, u: Usage)
    ensures 1000000.0 * (CostAt(r, u) - r.perRequest) ==
              u.input * r.input + u.output * r.output + u.cacheRead * r.cacheRead + u.cacheWrite * r.cacheWrite
  {
  }

  /** The api's implementation: pick one of the two rate tables, then fill in its cache rates. */
  function ApiCost(m: Rates, u: Usage): (c: real)
    ensures c == Cost(m, u)
  {
    var prompt := u.input + u.cacheRead + u.cacheWrite;
    var rates :=
      if m.longContext.Some? && prompt > m.longContext.value.above then
        var t := m.longContext.value;
        m.(input := t.input, output := t.output, cacheRead := Some(t.cacheRead), cacheWrite := Some(t.cacheWrite))
      else m;
    var readRate := rates.cacheRead.GetOr(rates.input * 0.1);
    var writeRate := rates.cacheWrite.GetOr(rates.input * 1.25);
    m.perRequest.GetOr(0.0)
    + (u.input * rates.input + u.output * rates.output + u.cacheRead * readRate + u.cacheWrite * writeRate) / PER
  }

  /** The proxy's implementation: four locals, overwritten by the tier, then the fallbacks. */
  method ProxyCost(m: Rates, u: Usage) returns (c: real)
    ensures c == Cost(m, u) == ApiCost(m, u)
  {
    var prompt := u.input + u.cacheRead + u.cacheWrite;
    var input, output, read, write := m.input, m.output, m.cacheRead, m.cacheWrite;
    if m.longContext.Some? && prompt > m.longContext.value.above {
      var t := m.longContext.value;
      input, output, read, write := t.input, t.output, Some(t.cacheRead), Some(t.cacheWrite);
    }
    var readRate := input * 0.1;
    if read.Some? {
      readRate := read.value;
    }
    var writeRate := input * 1.25;
    if write.Some? {
      writeRate := write.value;
    }
    var perRequest := 0.0;
    if m.perRequest.Some? {
      perRequest := m.perRequest.value;
    }
    c := perRequest + (u.input * input + u.output * output + u.cacheRead * readRate + u.cacheWrite * writeRate) / PER;
  }

  // ---------------------------------------------------------------------------
  // More tokens never cost less
  // ---------------------------------------------------------------------------

  predicate NoMore(u: Usage, v: Usage) {
    && 0.0 <= u.input <= v.input && 0.0 <= u.output <= v.output
    && 0.0 <= u.cacheRead <= v.cacheRead && 0.0 <= u.cacheWrite <= v.cacheWrite
  }

  predicate NoDearer(r: FullRates, s: FullRates) {
    && r.input <= s.input && r.output <= s.output && r.cacheRead <= s.cacheRead && r.cacheWrite <= s.cacheWrite
    && r.perRequest <= s.perRequest
  }

  predicate NonNegative(r: FullRates) {
    0.0 <= r.input && 0.0 <= r.output && 0.0 <= r.cacheRead && 0.0 <= r.cacheWrite
  }

  predicate RatesOk(m: Rates) {
    && NonNegative(BaseRates(m))
    && (m.longContext.Some? ==> NonNegative(TierRates(m, m.longContext.value)) && m.longContext.value.above > 0.0)
  }

  /** Every tier rate is at least the rate it replaces, fallbacks included. */
  predicate TierCoversBase(m: Rates) {
    m.longContext.Some? ==> NoDearer(BaseRates(m), TierRates(m, m.longContext.value))
  }

  lemma ProductGrows(a: real, b: real, r: real, s: real)
    requires 0.0 <= a <= b && 0.0 <= r <= s
    ensures a * r <= b * s
  {
  }

  lemma CostAtGrows(r: FullRates, s: FullRates, u: Usage, v: Usage)
    requires NonNegative(r) && NoDearer(r, s) && NoMore(u, v)
    ensures CostAt(r, u) <= CostAt(s, v)
  {
    ProductGrows(u.input, v.input, r.input, s.input);
    ProductGrows(u.output, v.output, r.output, s.output);
    ProductGrows(u.cacheRead, v.cacheRead, r.cacheRead, s.cacheRead);
    ProductGrows(u.cacheWrite, v.cacheWrite, r.cacheWrite, s.cacheWrite);
  }

  lemma CostGrows(m: Rates, u: Usage, v: Usage)
    requires RatesOk(m) && TierCoversBase(m) && NoMore(u, v)
    ensures Cost(m, u) <= Cost(m, v)
  {
    var r := if InTier(m, u) then TierRates(m, m.longContext.value) else BaseRates(m);
    var s := if InTier(m, v) then TierRates(m, m.longContext.value) else BaseRates(m);
    CostAtGrows(r, s, u, v);
  }

  /** More output alone never costs less: the prompt decides the tier. */
  lemma CostOfMoreOutput(m: Rates, u: Usage, v: Usage)
    requires RatesOk(m) && u == v.(output := u.output) && u.output <= v.output
    ensures Cost(m, u) <= Cost(m, v)
  {
    var r := if InTier(m, u) then TierRates(m, m.longContext.value) else BaseRates(m);
    assert u.output * r.output <= v.output * r.output;
  }

  /** How far past the threshold a bucket can go and still cost less at the lower rate. */
  lemma StepPast(above: real, r: real, s: real) returns (step: real)
    requires above > 0.0 && 0.0 <= s < r
    ensures step > 0.0 && (above + step) * s < above * r
  {
    step := above * (r - s) / (s + 1.0);
    assert above * (r - s) > 0.0;
    assert step * (s + 1.0) == above * (r - s);
    assert step * s < step * (s + 1.0);
    assert (above + step) * s == above * s + step * s;
    assert above * (r - s) == above * r - above * s;
  }

  /** Enough output tokens for a lower output rate to outweigh one more input token. */
  lemma EnoughOutput(extra: real, r: real, s: real) returns (n: real)
    requires extra >= 0.0 && s < r
    ensures n > 0.0 && n * r > extra + n * s
  {
    n := extra / (r - s) + 1.0;
    assert (extra / (r - s)) * (r - s) == extra;
    assert n * (r - s) == extra + (r - s);
    assert n * (r - s) == n * r - n * s;
  }

  lemma CheaperOutputDips(m: Rates, t: Tier) returns (u: Usage, v: Usage)
    requires RatesOk(m) && m.longContext == Some(t) && t.output < m.output
    ensures NoMore(u, v) && Cost(m, v) < Cost(m, u)
  {
    ProductGrows(0.0, t.above + 1.0, 0.0, t.input);
    ProductGrows(0.0, t.above, 0.0, m.input);
    var n := EnoughOutput((t.above + 1.0) * t.input, m.output, t.output);
    u, v := Usage(t.above, n, 0.0, 0.0), Usage(t.above + 1.0, n, 0.0, 0.0);
  }

  lemma CheaperInputDips(m: Rates, t: Tier) returns (u: Usage, v: Usage)
    requires RatesOk(m) && m.longContext == Some(t) && t.input < BaseRates(m).input
    ensures NoMore(u, v) && Cost(m, v) < Cost(m, u)
  {
    var r := BaseRates(m).input;
    var step := StepPast(t.above, r, t.input);
    u, v := Usage(t.above, 0.0, 0.0, 0.0), Usage(t.above + step, 0.0, 0.0, 0.0);
    assert Cost(m, u) == m.perRequest.GetOr(0.0) + t.above * r / PER;
    assert Cost(m, v) == m.perRequest.GetOr(0.0) + (t.above + step) * t.input / PER;
  }

  lemma CheaperReadDips(m: Rates, t: Tier) returns (u: Usage, v: Usage)
    requires RatesOk(m) && m.longContext == Some(t) && t.cacheRead < BaseRates(m).cacheRead
    ensures NoMore(u, v) && Cost(m, v) < Cost(m, u)
  {
    var r := BaseRates(m).cacheRead;
    var step := StepPast(t.above, r, t.cacheRead);
    u, v := Usage(0.0, 0.0, t.above, 0.0), Usage(0.0, 0.0, t.above + step, 0.0);
    assert Cost(m, u) == m.perRequest.GetOr(0.0) + t.above * r / PER;
    assert Cost(m, v) == m.perRequest.GetOr(0.0) + (t.above + step) * t.cacheRead / PER;
  }

  lemma CheaperWriteDips(m: Rates, t: Tier) returns (u: Usage, v: Usage)
    requires RatesOk(m) && m.longContext == Some(t) && t.cacheWrite < BaseRates(m).cacheWrite
    ensures NoMore(u, v) && Cost(m, v) < Cost(m, u)
  {
    var r := BaseRates(m).cacheWrite;
    var step := StepPast(t.above, r, t.cacheWrite);
    u, v := Usage(0.0, 0.0, 0.0, t.above), Usage(0.0, 0.0, 0.0, t.above + step);
    assert Cost(m, u) == m.perRequest.GetOr(0.0) + t.above * r / PER;
    assert Cost(m, v) == m.perRequest.GetOr(0.0) + (t.above + step) * t.cacheWrite / PER;
  }

  lemma CheaperTierDips(m: Rates) returns (u: Usage, v: Usage)
    requires RatesOk(m) && !TierCoversBase(m)
    ensures NoMore(u, v) && Cost(m, v) < Cost(m, u)
  {
    var t := m.longContext.value;
    if t.output < m.output {
      u, v := CheaperOutputDips(m, t);
    } else if t.input < m.input {
      u, v := CheaperInputDips(m, t);
    } else if t.cacheRead < BaseRates(m).cacheRead {
      u, v := CheaperReadDips(m, t);
    } else {
      u, v := CheaperWriteDips(m, t);
    }
  }

  /** Cost never falls as a bucket grows, across the threshold too, exactly when no tier rate is
      below the rate it replaces. */
  lemma CostIsMonotone(m: Rates)
    requires RatesOk(m)
    ensures TierCoversBase(m) <==> forall u, v :: NoMore(u, v) ==> Cost(m, u) <= Cost(m, v)
  {
    if TierCoversBase(m) {
      forall u, v | NoMore(u, v)
        ensures Cost(m, u) <= Cost(m, v)
      {
        CostGrows(m, u, v);
      }
    } else {
      var u, v := CheaperTierDips(m);
    }
  }
}
