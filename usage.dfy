/** Model selection, pricing and the usage ledger kept by `make_api_call`, and
    the per-model cost breakdown of `get_usage_statistics`. Money is an exact
    `real`; the Python floats may round differently. */
module Usage {
  import opened Results

  /** How a model is priced: per million input and output tokens, or per
      synthesised character. */
  datatype Pricing =
    | TokenTiered(input: real, output: real, description: string)
    | PerCharacter(rate: real, description: string)

  const StoryModel: string := "MiniMax-M1"
  const TextModel: string := "MiniMax-Text-01"
  /** Price per million tokens charged for a model missing from the table. */
  const DefaultPer1M: real := 0.5

  /** `MODELS.get(model_type, MODELS["simple_tasks"])`: the thinking model for
      story generation, the cheaper text model for everything else. Every
      chat model chosen this way is priced per token. */
  function ModelFor(modelType: string): (model: string)
    ensures model == StoryModel || model == TextModel
  {
    if modelType == "story_generation" then StoryModel
    else TextModel
  }

  /** Story generation, and nothing else, gets the thinking model; both chat
      models are priced per token. */
  lemma {:induction false} ModelForPricing(modelType: string)
    ensures ModelFor(modelType) == StoryModel <==> modelType == "story_generation"
    ensures ModelPricing(ModelFor(modelType)).Some? && ModelPricing(ModelFor(modelType)).value.TokenTiered?
  {
  }

  /** The `MODEL_COSTS` table; `None` for a model it does not list. */
  function ModelPricing(model: string): Option<Pricing> {
    if model == StoryModel then
      Some(TokenTiered(0.4, 2.2, "Top-Tier Model: 80K CoT Length x 1M Input"))
    else if model == TextModel then
      Some(TokenTiered(0.2, 1.1, "Text model, new model architecture, 1000k content length"))
    else if model == "speech-02-hd" then
      Some(PerCharacter(0.0001, "HD model with superior rhythm and stability"))
    else if model == "speech-02-turbo" then
      Some(PerCharacter(0.00006, "Turbo model with enhanced multilingual capabilities"))
    else None
  }

  /** The `usage` block of a chat reply; an absent field reads as 0. */
  datatype UsageBlock = UsageBlock(promptTokens: Option<nat>, completionTokens: Option<nat>, totalTokens: Option<nat>)
  {
    function Prompt(): nat { promptTokens.GetOr(0) }
    function Completion(): nat { completionTokens.GetOr(0) }
    function Total(): nat { totalTokens.GetOr(0) }
  }

  /** The estimated cost of one call: input and output tokens at the model's
      per-million prices, total characters at the per-character rate, or
      total tokens at the default price for an unknown model. */
  function CallCost(model: string, usage: UsageBlock): (cost: real)
    ensures cost >= 0.0
    ensures usage.Prompt() == 0 && usage.Completion() == 0 && usage.Total() == 0 ==> cost == 0.0
  {
    match ModelPricing(model)
    case Some(TokenTiered(input, output, _)) =>
      usage.Prompt() as real / 1000000.0 * input + usage.Completion() as real / 1000000.0 * output
    case Some(PerCharacter(rate, _)) =>
      usage.Total() as real * rate
    case None =>
      usage.Total() as real / 1000000.0 * DefaultPer1M
  }

  /** A call on the story model with 1000 prompt and 500 completion tokens
      costs $0.0004 + $0.0011. */
  lemma StoryModelCallCost()
    ensures CallCost(StoryModel, UsageBlock(Some(1000), Some(500), Some(1500))) == 0.0015
  {
  }

  /** Spending more tokens never makes a call cheaper. */
  lemma {:induction false} CallCostMonotone(model: string, u: UsageBlock, v: UsageBlock)
    requires u.Prompt() <= v.Prompt() && u.Completion() <= v.Completion() && u.Total() <= v.Total()
    ensures CallCost(model, u) <= CallCost(model, v)
  {
    match ModelPricing(model)
    case Some(TokenTiered(input, output, _)) =>
      assert u.Prompt() as real / 1000000.0 * input <= v.Prompt() as real / 1000000.0 * input;
      assert u.Completion() as real / 1000000.0 * output <= v.Completion() as real / 1000000.0 * output;
    case Some(PerCharacter(rate, _)) =>
      assert u.Total() as real * rate <= v.Total() as real * rate;
    case None =>
  }

  /** `api_usage_stats`: call and token counters, overall and per model, and
      the running cost estimate. */
  datatype Ledger = Ledger(
    totalCalls: nat,
    totalTokens: nat,
    estimatedCost: real,
    callsByModel: map<string, nat>,
    tokensByModel: map<string, nat>)

  /** The ledger `make_api_call` creates on its first call. */
  const EmptyLedger: Ledger := Ledger(0, 0, 0.0, map[], map[])

  /** `d.get(k, 0)`. */
  function Count<K>(m: map<K, nat>, k: K): nat {
    if k in m then m[k] else 0
  }

  /** The sum of a counter map's values. */
  ghost function Total(m: map<string, nat>): nat
    decreases |m|
  {
    if m == map[] then 0
    else
      var k :| k in m;
      m[k] + Total(m - {k})
  }

  /** The sum does not depend on which key is taken out first. */
  lemma {:induction false} TotalRemove(m: map<string, nat>, k: string)
    requires k in m
    ensures Total(m) == m[k] + Total(m - {k})
    decreases |m|
  {
    var j :| j in m && Total(m) == m[j] + Total(m - {j});
    if j != k {
      TotalRemove(m - {j}, k);
      TotalRemove(m - {k}, j);
      assert m - {j} - {k} == m - {k} - {j};
    }
  }

  /** Adding `n` to one counter adds `n` to the sum. */
  lemma {:induction false} TotalAdd(m: map<string, nat>, k: string, n: nat)
    ensures Total(m[k := Count(m, k) + n]) == Total(m) + n
  {
    var m' := m[k := Count(m, k) + n];
    TotalRemove(m', k);
    assert m' - {k} == m - {k};
    if k in m {
      TotalRemove(m, k);
    } else {
      assert m - {k} == m;
    }
  }

  /** The ledger's bookkeeping invariant: each total is the sum of its
      per-model counters, only models that were called have token counts,
      and the cost estimate is never negative. */
  ghost predicate Consistent(l: Ledger) {
    && l.totalCalls == Total(l.callsByModel)
    && l.totalTokens == Total(l.tokensByModel)
    && l.tokensByModel.Keys <= l.callsByModel.Keys
    && l.estimatedCost >= 0.0
  }

  /** The ledger update after a successful call to `model`: one more call in
      total and for the model; when the reply carried a usage block, its total
      tokens and its estimated cost are added as well. */
  function Record(l: Ledger, model: string, usage: Option<UsageBlock>): (r: Ledger)
    ensures r.totalCalls == l.totalCalls + 1
    ensures r.callsByModel == l.callsByModel[model := Count(l.callsByModel, model) + 1]
    ensures usage.None? ==> r.totalTokens == l.totalTokens && r.tokensByModel == l.tokensByModel
                            && r.estimatedCost == l.estimatedCost
    ensures usage.Some? ==>
              && r.totalTokens == l.totalTokens + usage.value.Total()
              && r.tokensByModel == l.tokensByModel[model := Count(l.tokensByModel, model) + usage.value.Total()]
              && r.estimatedCost == l.estimatedCost + CallCost(model, usage.value)
  {
    var calls := l.callsByModel[model := Count(l.callsByModel, model) + 1];
    match usage
    case None => l.(totalCalls := l.totalCalls + 1, callsByModel := calls)
    case Some(u) =>
      Ledger(
        l.totalCalls + 1,
        l.totalTokens + u.Total(),
        l.estimatedCost + CallCost(model, u),
        calls,
        l.tokensByModel[model := Count(l.tokensByModel, model) + u.Total()])
  }

  lemma EmptyLedgerConsistent()
    ensures Consistent(EmptyLedger)
  {
  }

  /** Recording a call keeps the totals equal to the per-model sums. */
  lemma {:induction false} RecordConsistent(l: Ledger, model: string, usage: Option<UsageBlock>)
    requires Consistent(l)
    ensures Consistent(Record(l, model, usage))
  {
    var r := Record(l, model, usage);
    assert r.totalCalls == Total(r.callsByModel) by {
      TotalAdd(l.callsByModel, model, 1);
    }
    if usage.Some? {
      assert r.totalTokens == Total(r.tokensByModel) by {
        TotalAdd(l.tokensByModel, model, usage.value.Total());
      }
    }
  }

  /** No counter of the ledger ever decreases, and no model is forgotten. */
  lemma {:induction false} RecordGrows(l: Ledger, model: string, usage: Option<UsageBlock>)
    ensures var r := Record(l, model, usage);
            && r.totalTokens >= l.totalTokens
            && r.estimatedCost >= l.estimatedCost
            && l.callsByModel.Keys <= r.callsByModel.Keys
            && l.tokensByModel.Keys <= r.tokensByModel.Keys
            && (forall m :: m in l.callsByModel ==> r.callsByModel[m] >= l.callsByModel[m])
            && (forall m :: m in l.tokensByModel ==> r.tokensByModel[m] >= l.tokensByModel[m])
  {
  }

  /** One model's entry of `cost_breakdown`. */
  datatype Breakdown =
    | TieredCost(tokens: nat, inputTokens: nat, outputTokens: nat, cost: real,
                 inputPer1M: real, outputPer1M: real, description: string)
    | CharacterCost(characters: nat, cost: real, perCharacter: real, description: string)
    | DefaultCost(tokens: nat, cost: real, per1M: real, description: string)

  /** The breakdown of `tokens` spent on `model`. Token-priced models split the
      tokens 70/30 between input and output, the input share rounded down. */
  function BreakdownFor(model: string, tokens: nat): (b: Breakdown)
    ensures b.TieredCost? <==> ModelPricing(model).Some? && ModelPricing(model).value.TokenTiered?
    ensures b.DefaultCost? <==> ModelPricing(model).None?
    ensures b.TieredCost? ==>
              && b.tokens == tokens
              && b.inputTokens + b.outputTokens == tokens
              && 10 * b.inputTokens <= 7 * tokens < 10 * b.inputTokens + 10
    ensures b.CharacterCost? ==> b.characters == tokens
    ensures b.DefaultCost? ==> b.tokens == tokens && b.per1M == DefaultPer1M
    ensures b.cost >= 0.0
  {
    match ModelPricing(model)
    case Some(TokenTiered(input, output, description)) =>
      var inputTokens := 7 * tokens / 10;
      var outputTokens := tokens - inputTokens;
      var cost := inputTokens as real / 1000000.0 * input + outputTokens as real / 1000000.0 * output;
      TieredCost(tokens, inputTokens, outputTokens, cost, input, output, description)
    case Some(PerCharacter(rate, description)) =>
      CharacterCost(tokens, tokens as real * rate, rate, description)
    case None =>
      DefaultCost(tokens, tokens as real / 1000000.0 * DefaultPer1M, DefaultPer1M,
                  "Unknown model (estimated pricing)")
  }

  /** The loop of `get_usage_statistics` that builds `cost_breakdown`: exactly
      one entry per model with recorded tokens. */
  method CostBreakdown(tokensByModel: map<string, nat>) returns (r: map<string, Breakdown>)
    ensures r.Keys == tokensByModel.Keys
    ensures forall m :: m in r ==> r[m] == BreakdownFor(m, tokensByModel[m])
  {
    r := map[];
    var pending := tokensByModel.Keys;
    while pending != {}
      invariant pending <= tokensByModel.Keys
      invariant r.Keys == tokensByModel.Keys - pending
      invariant forall m :: m in r ==> r[m] == BreakdownFor(m, tokensByModel[m])
      decreases pending
    {
      var m :| m in pending;
      r := r[m := BreakdownFor(m, tokensByModel[m])];
      pending := pending - {m};
    }
  }

  /** The statistics report: the ledger's counters plus the cost breakdown. */
  datatype Report = Report(ledger: Ledger, costBreakdown: map<string, Breakdown>)

  /** `get_usage_statistics`: all zeros and empty maps before the first call,
      otherwise a copy of the ledger with its breakdown. */
  method UsageStatistics(stats: Option<Ledger>) returns (r: Report)
    ensures stats.None? ==> r.ledger == EmptyLedger && r.costBreakdown == map[]
    ensures stats.Some? ==> r.ledger == stats.value
    ensures r.costBreakdown.Keys == r.ledger.tokensByModel.Keys
    ensures forall m :: m in r.costBreakdown ==>
              r.costBreakdown[m] == BreakdownFor(m, r.ledger.tokensByModel[m])
  {
    if stats.None? {
      return Report(EmptyLedger, map[]);
    }
    var breakdown := CostBreakdown(stats.value.tokensByModel);
    r := Report(stats.value, breakdown);
  }
}
