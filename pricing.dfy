/** The cost calculator (`APIPricing`): a model's two prices per 1000 tokens,
    the transcript splitter run over the object's current text, and the cost
    of the two resulting texts under a token counter. */
module Pricing {
  import opened Text
  import opened Transcript

  /** The prices per 1000 tokens of one model, for prompt and completion tokens. */
  datatype Prices = Prices(prompt: real, completion: real)

  datatype PricingError = UnknownModel(name: string)

  datatype Result<T> = Ok(value: T) | Err(error: PricingError)

  /** A token counter: the number of tokens of a text under a model's encoding.
      The calculator's own counter calls a tokenizer library (which app.py
      names at line 47 without importing it), so here it is a parameter. */
  type TokenCounter = (string, string) -> nat

  predicate NonNegative(p: Prices) {
    p.prompt >= 0.0 && p.completion >= 0.0
  }

  /** The price-table lookup done when a calculator is created: a model
      missing from the table is an error. */
  function Lookup(table: map<string, Prices>, modelName: string): (r: Result<Prices>)
    ensures r.Ok? <==> modelName in table
    ensures r.Ok? ==> r.value == table[modelName]
    ensures r.Err? ==> r.error == UnknownModel(modelName)
  {
    if modelName in table then Ok(table[modelName]) else Err(UnknownModel(modelName))
  }

  /** The cost of `userTokens` prompt tokens and `assistantTokens` completion
      tokens, each priced per 1000 tokens. */
  function Cost(userTokens: nat, assistantTokens: nat, p: Prices): (r: real)
    ensures NonNegative(p) ==> r >= 0.0
    ensures userTokens == 0 ==> r == assistantTokens as real * p.completion / 1000.0
    ensures assistantTokens == 0 ==> r == userTokens as real * p.prompt / 1000.0
  {
    userTokens as real * p.prompt / 1000.0 + assistantTokens as real * p.completion / 1000.0
  }

  /** With non-negative prices, more tokens of either kind never cost less. */
  lemma CostMonotone(u1: nat, a1: nat, u2: nat, a2: nat, p: Prices)
    requires NonNegative(p)
    requires u1 <= u2 && a1 <= a2
    ensures Cost(u1, a1, p) <= Cost(u2, a2, p)
  {
  }

  /** Costs add up: pricing two batches of tokens together is pricing them apart. */
  lemma CostAdditive(u1: nat, a1: nat, u2: nat, a2: nat, p: Prices)
    ensures Cost(u1 + u2, a1 + a2, p) == Cost(u1, a1, p) + Cost(u2, a2, p)
  {
  }

  /** 100 prompt tokens at 1.0 and 50 completion tokens at 2.0 per 1000 cost 0.2. */
  lemma CostExample()
    ensures Cost(100, 50, Prices(1.0, 2.0)) == 0.2
  {
  }

  class APIPricing {
    const modelName: string
    const promptPrice: real
    const completionPrice: real
    /** The transcript the last cost calculation was asked about. */
    var text: string

    /** A calculator over prices already read from the price table. */
    constructor (modelName: string, prices: Prices)
      ensures this.modelName == modelName
      ensures promptPrice == prices.prompt && completionPrice == prices.completion
      ensures text == ""
    {
      this.modelName := modelName;
      promptPrice := prices.prompt;
      completionPrice := prices.completion;
      text := "";
    }

    /** Creation from a price table: fails when the model is not in the table. */
    static method Open(table: map<string, Prices>, modelName: string) returns (r: Result<APIPricing>)
      ensures r.Ok? <==> modelName in table
      ensures r.Err? ==> r.error == UnknownModel(modelName)
      ensures r.Ok? ==> fresh(r.value) && r.value.modelName == modelName
                        && r.value.promptPrice == table[modelName].prompt
                        && r.value.completionPrice == table[modelName].completion
    {
      var prices := Lookup(table, modelName);
      if prices.Err? {
        return Err(prices.error);
      }
      var calculator := new APIPricing(modelName, prices.value);
      return Ok(calculator);
    }

    function CurrentPrices(): (p: Prices)
      reads this
      ensures p.prompt == promptPrice && p.completion == completionPrice
    {
      Prices(promptPrice, completionPrice)
    }

    /** The transcript splitter over the current text, line by line with a
        user/assistant flag; it computes exactly `SplitTranscript(text)`. */
    method SplitText() returns (userText: string, assistantText: string)
      ensures (userText, assistantText) == SplitTranscript(text)
    {
      var lines := Split(text, '\n');
      var user := UserSeed;
      var assistant := AssistantSeed;
      var isUser := true;
      for i := 0 to |lines|
        invariant SplitState(lines, i, isUser, user, assistant)
      {
        SplitStep(lines, i, isUser, user, assistant);
        var line := lines[i];
        if line == UserMarker {
          isUser := true;
          continue;
        } else if line == AssistantMarker {
          isUser := false;
          continue;
        } else if line == "" {
          continue;
        }
        if isUser {
          user := user + [line];
        } else {
          assistant := assistant + [line];
        }
      }
      assert lines[..|lines|] == lines;
      userText := Join(user, " ");
      assistantText := Join(assistant, " ");
    }

    /** Records `t` as the current text and prices its user part at the
        prompt price and its assistant part at the completion price. */
    method CalcCost(t: string, count: TokenCounter) returns (totalCost: real)
      modifies this`text
      ensures text == t
      ensures totalCost == Cost(count(modelName, SplitTranscript(t).0),
                                count(modelName, SplitTranscript(t).1), CurrentPrices())
      ensures NonNegative(CurrentPrices()) ==> totalCost >= 0.0
    {
      text := t;
      var userText, assistantText := SplitText();
      var userTokenCount := count(modelName, userText);
      var assistantTokenCount := count(modelName, assistantText);
      var userCost := userTokenCount as real * promptPrice / 1000.0;
      var assistantCost := assistantTokenCount as real * completionPrice / 1000.0;
      totalCost := userCost + assistantCost;
    }
  }

  /** The state of the splitter loop after `i` lines: the flag says whether
      the mode is user, and each bucket is its seed followed by the lines of
      that role read so far. */
  ghost predicate SplitState(lines: seq<string>, i: int, isUser: bool, user: seq<string>, assistant: seq<string>) {
    && 0 <= i <= |lines|
    && (isUser <==> ModeAfter(lines[..i]) == User)
    && user == UserSeed + Bucket(lines[..i], User)
    && assistant == AssistantSeed + Bucket(lines[..i], Assistant)
  }

  /** One turn of the splitter loop, for each way the line can be handled. */
  lemma SplitStep(lines: seq<string>, i: int, isUser: bool, user: seq<string>, assistant: seq<string>)
    requires i < |lines| && SplitState(lines, i, isUser, user, assistant)
    ensures lines[i] == UserMarker ==> SplitState(lines, i + 1, true, user, assistant)
    ensures lines[i] == AssistantMarker ==> SplitState(lines, i + 1, false, user, assistant)
    ensures lines[i] == "" ==> SplitState(lines, i + 1, isUser, user, assistant)
    ensures IsContent(lines[i]) && isUser ==> SplitState(lines, i + 1, isUser, user + [lines[i]], assistant)
    ensures IsContent(lines[i]) && !isUser ==> SplitState(lines, i + 1, isUser, user, assistant + [lines[i]])
  {
    assert lines[..i + 1] == lines[..i] + [lines[i]];
    Snoc(lines[..i], lines[i], User);
    Snoc(lines[..i], lines[i], Assistant);
  }

  /** With non-negative prices, a counter that never gives fewer tokens than
      another never gives a transcript a lower cost. */
  lemma TranscriptCostMonotone(t: string, c1: TokenCounter, c2: TokenCounter, modelName: string, p: Prices)
    requires NonNegative(p)
    requires forall s :: c1(modelName, s) <= c2(modelName, s)
    ensures Cost(c1(modelName, SplitTranscript(t).0), c1(modelName, SplitTranscript(t).1), p)
            <= Cost(c2(modelName, SplitTranscript(t).0), c2(modelName, SplitTranscript(t).1), p)
  {
    var (u, a) := SplitTranscript(t);
    CostMonotone(c1(modelName, u), c1(modelName, a), c2(modelName, u), c2(modelName, a), p);
  }
}
