/** Model prices, cache-aware call cost, and the worst-case cost a request can reserve. */
module Pricing {
  import opened Prelude

  /** USD per million tokens, plus the model's largest synchronous output when it is known. */
  datatype ModelPrice = ModelPrice(
    input: real, output: real, cacheRead: real, cacheWrite: real, maxOutput: Option<nat>)

  predicate ValidPrice(p: ModelPrice) {
    && 0.0 <= p.input && 0.0 <= p.output && 0.0 <= p.cacheRead && 0.0 <= p.cacheWrite
    && (p.maxOutput.Some? ==> 1 <= p.maxOutput.value)
  }

  /** Token counts of one call, as the provider reports them; None means it reported nothing. */
  datatype Usage = Usage(
    input: Option<int>, output: Option<int>, cacheRead: Option<int>, cacheWrite: Option<int>)

  function Count(n: Option<int>): int { if n.Some? then n.value else 0 }

  const MILLION := 1_000_000.0
  const REQUEST_TOKEN_OVERHEAD := 256

  function CostUsd(price: Option<ModelPrice>, usage: Option<Usage>, free: bool): Option<real> {
    if free then Some(0.0)
    else if price.None? || usage.None? then None
    else
      var p, u := price.value, usage.value;
      Some(Bill(Count(u.input) as real, Count(u.output) as real,
                Count(u.cacheRead) as real, Count(u.cacheWrite) as real, p))
  }

  function Bill(input: real, output: real, cacheRead: real, cacheWrite: real, p: ModelPrice): real {
    (input * p.input + output * p.output + cacheRead * p.cacheRead + cacheWrite * p.cacheWrite) / MILLION
  }

  function WorstBill(input: real, output: real, p: ModelPrice): real {
    (input * RMax(RMax(p.input, p.cacheRead), p.cacheWrite) + output * p.output) / MILLION
  }

  /** One output-cap field of a request body: missing, a non-negative integer, or anything else. */
  datatype CapField = Missing | Cap(tokens: nat) | Malformed

  /** What a reservation reads from a request body. */
  datatype Body = NotAnObject(length: nat) | Object(length: nat, maxTokens: CapField, maxCompletionTokens: CapField)

  /** The output bound: the larger explicit cap wins, the catalogue cap stands in when there is none. */
  function OutputBound(body: Body, price: ModelPrice): Option<nat> {
    if body.NotAnObject? || body.maxTokens.Malformed? || body.maxCompletionTokens.Malformed? then None
    else match (body.maxTokens, body.maxCompletionTokens)
      case (Missing, Missing) => price.maxOutput
      case (Cap(a), Missing) => Some(a)
      case (Missing, Cap(b)) => Some(b)
      case (Cap(a), Cap(b)) => Some(Max(a, b))
  }

  function ReservationCost(body: Body, price: Option<ModelPrice>): Option<real> {
    if price.None? then None
    else
      var p := price.value;
      var bound := OutputBound(body, p);
      if bound.None? then None
      else
        Some(WorstBill((body.length + REQUEST_TOKEN_OVERHEAD) as real, bound.value as real, p))
  }

  lemma MulMono(a: real, b: real, c: real)
    requires a <= b && 0.0 <= c
    ensures a * c <= b * c
  {}

  lemma Distribute(a: real, b: real, c: real, x: real)
    ensures (a + b + c) * x == a * x + b * x + c * x
  {}

  lemma MillionthsMono(a: real, b: real)
    requires a <= b
    ensures a / MILLION <= b / MILLION
  {}

  /** Pricing every input-side token at the highest of the three input rates dominates the split. */
  lemma InputSideDominated(i: real, r: real, w: real, pi: real, pr: real, pw: real, rate: real, room: real)
    requires 0.0 <= i && 0.0 <= r && 0.0 <= w && i + r + w <= room
    requires 0.0 <= pi <= rate && 0.0 <= pr <= rate && 0.0 <= pw <= rate
    ensures 0.0 <= i * pi + r * pr + w * pw <= room * rate
  {
    Swap(i, pi); Swap(r, pr); Swap(w, pw); Swap(i, rate); Swap(r, rate); Swap(w, rate);
    MulMono(pi, rate, i); MulMono(pr, rate, r); MulMono(pw, rate, w);
    MulMono(0.0, pi, i); MulMono(0.0, pr, r); MulMono(0.0, pw, w);
    MulMono(i + r + w, room, rate);
    Distribute(i, r, w, rate);
    var a, b, c := i * pi, r * pr, w * pw;
    var x, y, z := i * rate, r * rate, w * rate;
    assert 0.0 <= a <= x && 0.0 <= b <= y && 0.0 <= c <= z;
    assert a + b + c <= x + y + z;
  }

  lemma Swap(a: real, b: real)
    ensures a * b == b * a
  {}

  lemma OutputDominated(o: real, bound: real, po: real)
    requires 0.0 <= o <= bound && 0.0 <= po
    ensures 0.0 <= o * po <= bound * po
  {
    MulMono(0.0, o, po);
    MulMono(o, bound, po);
  }

  /** The whole bill in real-valued token counts, before and after the division by a million. */
  lemma BillCovered(i: real, o: real, r: real, w: real, room: real, bound: real, p: ModelPrice)
    requires ValidPrice(p)
    requires 0.0 <= i && 0.0 <= r && 0.0 <= w && i + r + w <= room && 0.0 <= o <= bound
    ensures 0.0 <= Bill(i, o, r, w, p) <= WorstBill(room, bound, p)
  {
    var rate := RMax(RMax(p.input, p.cacheRead), p.cacheWrite);
    InputSideDominated(i, r, w, p.input, p.cacheRead, p.cacheWrite, rate, room);
    OutputDominated(o, bound, p.output);
    var a, b, c, d := i * p.input, o * p.output, r * p.cacheRead, w * p.cacheWrite;
    assert a + b + c + d <= room * rate + bound * p.output;
    MillionthsMono(0.0, a + b + c + d);
    MillionthsMono(a + b + c + d, room * rate + bound * p.output);
  }

  predicate NoNegative(u: Usage) {
    0 <= Count(u.input) && 0 <= Count(u.output) && 0 <= Count(u.cacheRead) && 0 <= Count(u.cacheWrite)
  }

  /** The tokens reported fit what the request is reserved for. */
  predicate UsageFits(body: Body, price: ModelPrice, u: Usage) {
    && NoNegative(u) && OutputBound(body, price).Some?
    && Count(u.input) + Count(u.cacheRead) + Count(u.cacheWrite) <= body.length + REQUEST_TOKEN_OVERHEAD
    && Count(u.output) <= OutputBound(body, price).value
  }

  /** A reservation covers the bill: whenever the reported input-side tokens together fit in the
      request's bytes plus the protocol allowance and the output fits the bound, the price of the
      call at the same rates is at most the reserved amount, however the input splits into
      uncached, cache-read and cache-write tokens. */
  lemma ReservationCoversCost(body: Body, price: ModelPrice, usage: Usage)
    requires ValidPrice(price) && UsageFits(body, price, usage)
    ensures ReservationCost(body, Some(price)).Some?
    ensures CostUsd(Some(price), Some(usage), false).Some?
    ensures 0.0 <= CostUsd(Some(price), Some(usage), false).value
                <= ReservationCost(body, Some(price)).value
  {
    BillCovered(Count(usage.input) as real, Count(usage.output) as real,
                Count(usage.cacheRead) as real, Count(usage.cacheWrite) as real,
                (body.length + REQUEST_TOKEN_OVERHEAD) as real, OutputBound(body, price).value as real,
                price);
  }

  /** OpenAI reports cached tokens inside the prompt; they are taken out of the uncached input. */
  function OpenAiUsage(prompt: Option<int>, completion: Option<int>, cached: Option<int>): Usage {
    Usage(if prompt.None? then None else Some(prompt.value - Count(cached)), completion, cached, None)
  }

  /** What an OpenAI report must say to fit: nothing negative, no more cached than prompt tokens, and a
      prompt and a completion within the two bounds. */
  lemma OpenAiUsageFitsIff(body: Body, price: ModelPrice, prompt: int, completion: Option<int>, cached: Option<int>)
    requires OutputBound(body, price).Some?
    ensures UsageFits(body, price, OpenAiUsage(Some(prompt), completion, cached))
            <==> && 0 <= Count(cached) <= prompt <= body.length + REQUEST_TOKEN_OVERHEAD
                 && 0 <= Count(completion) <= OutputBound(body, price).value
  {}

  /** That condition is not enforced: a report of more cached than prompt tokens has a negative bill. */
  lemma OvercachedReportIsCredited()
    ensures exists price, usage ::
              && ValidPrice(price) && usage == OpenAiUsage(Some(1), None, Some(3))
              && CostUsd(Some(price), Some(usage), false) == Some(-2.0)
  {
    var price := ModelPrice(MILLION, 0.0, 0.0, 0.0, None);
    assert CostUsd(Some(price), Some(OpenAiUsage(Some(1), None, Some(3))), false) == Some(-2.0);
  }

  // ----- what a bill and a reservation are worth -------------------------------------------------

  /** A call's cost is unknown only when a paid call has no price or no usage; a free one costs nothing. */
  lemma CostKnownIff(price: Option<ModelPrice>, usage: Option<Usage>, free: bool)
    ensures CostUsd(price, usage, free).Some? <==> free || (price.Some? && usage.Some?)
    ensures free ==> CostUsd(price, usage, free) == Some(0.0)
  {}

  const A_MILLION := 1_000_000

  /** The table quotes dollars per million tokens: a million tokens of one kind cost that kind's rate. */
  lemma MillionTokensCostTheirRate(p: ModelPrice)
    ensures CostUsd(Some(p), Some(Usage(Some(A_MILLION), None, None, None)), false) == Some(p.input)
    ensures CostUsd(Some(p), Some(Usage(None, Some(A_MILLION), None, None)), false) == Some(p.output)
    ensures CostUsd(Some(p), Some(Usage(None, None, Some(A_MILLION), None)), false) == Some(p.cacheRead)
    ensures CostUsd(Some(p), Some(Usage(None, None, None, Some(A_MILLION))), false) == Some(p.cacheWrite)
  {
    OneRate(p.input);
    OneRate(p.output);
    OneRate(p.cacheRead);
    OneRate(p.cacheWrite);
  }

  lemma OneRate(rate: real)
    ensures A_MILLION as real * rate / MILLION == rate
  {
    Swap(MILLION, rate);
  }

  function Together(u: Usage, v: Usage): Usage {
    Usage(Some(Count(u.input) + Count(v.input)), Some(Count(u.output) + Count(v.output)),
          Some(Count(u.cacheRead) + Count(v.cacheRead)), Some(Count(u.cacheWrite) + Count(v.cacheWrite)))
  }

  /** Bills add: two usages billed together cost what they cost apart. With the rates of a million
      tokens this fixes the bill of every usage. */
  lemma BillsAdd(p: ModelPrice, u: Usage, v: Usage)
    ensures CostUsd(Some(p), Some(Together(u, v)), false)
            == Some(CostUsd(Some(p), Some(u), false).value + CostUsd(Some(p), Some(v), false).value)
  {
    BillSum(Count(u.input) as real, Count(u.output) as real, Count(u.cacheRead) as real, Count(u.cacheWrite) as real,
            Count(v.input) as real, Count(v.output) as real, Count(v.cacheRead) as real, Count(v.cacheWrite) as real,
            p);
  }

  lemma BillSum(i: real, o: real, r: real, w: real, i1: real, o1: real, r1: real, w1: real, p: ModelPrice)
    ensures Bill(i + i1, o + o1, r + r1, w + w1, p) == Bill(i, o, r, w, p) + Bill(i1, o1, r1, w1, p)
  {
    DistributeTwo(i, i1, p.input);
    DistributeTwo(o, o1, p.output);
    DistributeTwo(r, r1, p.cacheRead);
    DistributeTwo(w, w1, p.cacheWrite);
    var x := i * p.input + o * p.output + r * p.cacheRead + w * p.cacheWrite;
    var y := i1 * p.input + o1 * p.output + r1 * p.cacheRead + w1 * p.cacheWrite;
    assert (x + y) / MILLION == x / MILLION + y / MILLION;
  }

  lemma DistributeTwo(a: real, b: real, x: real)
    ensures (a + b) * x == a * x + b * x
  {}

  /** Which output a request may be charged for: the larger of its caps, whatever the catalogue says;
      the catalogue's own cap only when it gives none; and no bound at all when a cap is malformed or
      the body is not an object. */
  lemma OutputBoundIs(body: Body, price: ModelPrice)
    ensures body.NotAnObject? || body.maxTokens.Malformed? || body.maxCompletionTokens.Malformed? ==>
              OutputBound(body, price).None?
    ensures body.Object? && body.maxTokens.Missing? && body.maxCompletionTokens.Missing? ==>
              OutputBound(body, price) == price.maxOutput
    ensures body.Object? && !body.maxTokens.Malformed? && !body.maxCompletionTokens.Malformed?
            && (body.maxTokens.Cap? || body.maxCompletionTokens.Cap?) ==>
              && OutputBound(body, price).Some?
              && (forall cap :: cap in {body.maxTokens, body.maxCompletionTokens} && cap.Cap? ==>
                    cap.tokens <= OutputBound(body, price).value)
              && Cap(OutputBound(body, price).value) in {body.maxTokens, body.maxCompletionTokens}
  {}

  /** The reservation is no larger than it must be: some usage within the bounds costs exactly that. */
  lemma ReservationIsTight(body: Body, price: ModelPrice) returns (u: Usage)
    requires ValidPrice(price) && OutputBound(body, price).Some?
    ensures UsageFits(body, price, u)
    ensures CostUsd(Some(price), Some(u), false) == ReservationCost(body, Some(price))
  {
    var room, bound := body.length + REQUEST_TOKEN_OVERHEAD, OutputBound(body, price).value;
    var dearest := RMax(RMax(price.input, price.cacheRead), price.cacheWrite);
    u := if dearest == price.input then Usage(Some(room), Some(bound), None, None)
         else if dearest == price.cacheRead then Usage(None, Some(bound), Some(room), None)
         else Usage(None, Some(bound), None, Some(room));
    DearestKind(room as real, bound as real, price, dearest);
    hide Bill, WorstBill;
  }

  /** All input-side tokens of the dearest kind make the worst bill. */
  lemma DearestKind(room: real, bound: real, p: ModelPrice, dearest: real)
    requires dearest == RMax(RMax(p.input, p.cacheRead), p.cacheWrite)
    ensures dearest == p.input ==> Bill(room, bound, 0.0, 0.0, p) == WorstBill(room, bound, p)
    ensures dearest == p.cacheRead ==> Bill(0.0, bound, room, 0.0, p) == WorstBill(room, bound, p)
    ensures dearest == p.cacheWrite ==> Bill(0.0, bound, 0.0, room, p) == WorstBill(room, bound, p)
  {
    NoTokensNoCost(p);
  }

  lemma NoTokensNoCost(p: ModelPrice)
    ensures 0.0 * p.input == 0.0 && 0.0 * p.cacheRead == 0.0 && 0.0 * p.cacheWrite == 0.0
  {}

  // ----- price-table lookup ---------------------------------------------------------------

  predicate Matches(model: string, key: string) {
    && |key| < |model| && model[..|key|] == key
    && (model[|key|] == '-' || model[|key|] == '_')
  }

  /** The model goes on after the key with a dash or an underscore. */
  lemma MatchesIff(model: string, key: string)
    ensures Matches(model, key) <==> key + "-" <= model || key + "_" <= model
  {
    if Matches(model, key) { assert model[..|key| + 1] == key + [model[|key|]]; }
    if key + "-" <= model { assert model[..|key|] == (key + "-")[..|key|] == key && model[|key|] == '-'; }
    if key + "_" <= model { assert model[..|key|] == (key + "_")[..|key|] == key && model[|key|] == '_'; }
  }

  /** The keys that are delimiter-ended prefixes of `model`, in table order. */
  function MatchingKeys(keys: seq<string>, model: string): seq<string> {
    if keys == [] then []
    else (if Matches(model, keys[0]) then [keys[0]] else []) + MatchingKeys(keys[1..], model)
  }

  /** Python's `max(..., key=len)`: the first of the longest entries. */
  function FirstLongest(keys: seq<string>): (k: string)
    requires keys != []
    ensures k in keys && forall other <- keys :: |other| <= |k|
  {
    if |keys| == 1 then keys[0]
    else
      var rest := FirstLongest(keys[1..]);
      if |rest| <= |keys[0]| then keys[0] else rest
  }

  function Family(keys: seq<string>, model: string): Option<string> {
    if model == "" then None
    else if model in keys then Some(model)
    else
      var matches := MatchingKeys(keys, model);
      if matches == [] then None else Some(FirstLongest(matches))
  }

  lemma {:induction false} MatchingKeysExact(keys: seq<string>, model: string, key: string)
    ensures key in MatchingKeys(keys, model) <==> key in keys && Matches(model, key)
  {
    if keys != [] {
      MatchingKeysExact(keys[1..], model, key);
      assert keys == [keys[0]] + keys[1..];
    }
  }

  ghost function KeySet(keys: seq<string>): set<string> { set k | k in keys }

  /** What a family is, without the table's order: the model itself when it is priced, otherwise
      the longest priced prefix that ends at a delimiter. */
  predicate IsFamily(keys: set<string>, model: string, family: Option<string>) {
    match family
    case None => model == "" || (model !in keys && forall k <- keys :: !Matches(model, k))
    case Some(f) =>
      && model != "" && f in keys
      && if model in keys then f == model
         else Matches(model, f) && forall k <- keys :: Matches(model, k) ==> |k| <= |f|
  }

  /** The lookup meets that definition, and the definition has one answer, so the order in which
      the price table lists its models never decides which price a call is billed at. */
  lemma FamilyIsLongestPrefix(keys: seq<string>, model: string)
    ensures IsFamily(KeySet(keys), model, Family(keys, model))
    ensures forall other :: IsFamily(KeySet(keys), model, other) ==> other == Family(keys, model)
  {
    forall k ensures k in MatchingKeys(keys, model) <==> k in keys && Matches(model, k) {
      MatchingKeysExact(keys, model, k);
    }
    var found := Family(keys, model);
    forall other | IsFamily(KeySet(keys), model, other)
      ensures other == found
    {
      if model != "" && model !in keys {
        if MatchingKeys(keys, model) == [] {
          assert other.None?;
        } else {
          var f := FirstLongest(MatchingKeys(keys, model));
          assert f in MatchingKeys(keys, model);
          assert other.Some? && |other.value| == |f|;
          assert other.value == model[..|f|] == f;
        }
      }
    }
  }
}
