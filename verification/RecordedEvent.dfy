/** What the event recorded for one call says: who, how long, what it cost, and whether it failed. */
module RecordedEvent {
  import opened Prelude
  import opened Json
  import opened Rounding
  import opened UsageEvents
  import opened UsageSink

  // ----- reading values -----

  /** A number is one that is not negative: an integer, a decimal, or a text that reads as one. */
  lemma NumberExactlyWhen(lib: Library, value: Json, x: real)
    ensures Number(lib, value) == Some(x) <==>
      x >= 0.0 && (value == JReal(x) || (value.JInt? && value.number as real == x) || (value.JStr? && lib.parseFloat(value.text) == Some(x)))
  {
  }

  /** An integer is read as it is, a decimal toward zero, a text as Python reads it; negative ones not at all. */
  lemma IntegerExactlyWhen(lib: Library, value: Json, n: nat)
    ensures Integer(lib, value) == Some(n) <==>
      || value == JInt(n) || (value.JStr? && lib.parseInt(value.text) == Some(n))
      || (value.JReal? && n as real <= value.decimal < n as real + 1.0)
      || (value.JReal? && n == 0 && -1.0 < value.decimal < 0.0)
  {
    if value.JReal? {
      var x := value.decimal;
      assert x >= 0.0 ==> (x.Floor == n <==> n as real <= x < n as real + 1.0);
      assert x < 0.0 ==> ((-x).Floor == 0 <==> -1.0 < x);
    }
  }

  /** A text is a text that is not empty, or an integer or truth value as Python shows it. */
  lemma TextExactlyWhen(lib: Library, value: Json, text: string)
    ensures Text(lib, value) == Some(text) <==>
      text != "" && (value == JStr(text) || ((value.JInt? || value.JBool?) && lib.show(value) == text))
  {
  }

  // ----- cost -----

  ghost predicate OwnPrice(lib: Library, price: Price, provider: string, model: string) {
    price.provider == lib.fold(provider) && lib.fold(price.model) == lib.fold(model)
  }

  ghost predicate AnyPrice(lib: Library, price: Price, provider: string) {
    price.provider == lib.fold(provider) && price.model == "*"
  }

  /** The price of a model: the first of its provider for that very model, whatever its case, and otherwise the
      first of the provider for any model. */
  ghost predicate Applies(lib: Library, prices: seq<Price>, provider: string, model: string, price: Price) {
    || (exists n :: 0 <= n < |prices| && prices[n] == price && OwnPrice(lib, price, provider, model)
          && forall i | 0 <= i < n :: !OwnPrice(lib, prices[i], provider, model))
    || ((forall p | p in prices :: !OwnPrice(lib, p, provider, model))
        && exists n :: 0 <= n < |prices| && prices[n] == price && AnyPrice(lib, price, provider)
             && forall i | 0 <= i < n :: !AnyPrice(lib, prices[i], provider))
  }

  /** The first price that fits, if any does. */
  lemma {:induction false} FirstPriceIs(prices: seq<Price>, fits: Price -> bool)
    ensures FirstPrice(prices, fits).None? <==> forall p | p in prices :: !fits(p)
    ensures forall price :: FirstPrice(prices, fits) == Some(price) <==>
      exists n :: 0 <= n < |prices| && prices[n] == price && fits(price) && forall i | 0 <= i < n :: !fits(prices[i])
  {
    if prices != [] {
      var rest := prices[1..];
      assert prices == [prices[0]] + rest;
      FirstPriceIs(rest, fits);
      forall price ensures FirstPrice(prices, fits) == Some(price) <==>
        exists n :: 0 <= n < |prices| && prices[n] == price && fits(price) && forall i | 0 <= i < n :: !fits(prices[i])
      {
        if n :| 0 <= n < |prices| && prices[n] == price && fits(price) && forall i | 0 <= i < n :: !fits(prices[i]) {
          assert n > 0 ==> rest[n - 1] == price;
        }
        if n :| 0 <= n < |rest| && rest[n] == price && fits(price) && forall i | 0 <= i < n :: !fits(rest[i]) {
          assert prices[n + 1] == price && forall i | 0 < i < n + 1 :: prices[i] == rest[i - 1];
        }
      }
    }
  }

  /** The amount is that of the tokens at the price per million, to eight decimals. */
  ghost predicate IsPriced(amount: real, price: Price, input: nat, output: nat) {
    var exact := (input as real * price.inputPerMillion + output as real * price.outputPerMillion) / 1000000.0;
    -0.000000005 <= amount - exact <= 0.000000005
  }

  ghost predicate PricedAt(cost: (real, string), price: Price, input: nat, output: nat) {
    cost.1 == price.currency && IsPriced(cost.0, price, input, output)
  }

  lemma AppliesIs(lib: Library, prices: seq<Price>, provider: string, model: string)
    ensures var exact, any := FirstPrice(prices, ForModel(lib, provider, model)), FirstPrice(prices, ForAnyModel(lib, provider));
      forall price :: Applies(lib, prices, provider, model, price) <==> (if exact.Some? then exact else any) == Some(price)
  {
    FirstPriceIs(prices, ForModel(lib, provider, model));
    FirstPriceIs(prices, ForAnyModel(lib, provider));
    hide FirstPrice;
  }

  lemma RoundedAmount(price: Price, input: nat, output: nat)
    ensures IsPriced(Round8(AmountAt(price, input, output)), price, input, output)
  {
    hide Round8;
  }

  /** A cost is calculated if and only if tokens are known and a price applies. */
  lemma CalculatedExactlyWhen(lib: Library, prices: seq<Price>, provider: string, model: string, input: Option<nat>, output: Option<nat>)
    ensures var cost := CalculatedCost(lib, prices, provider, model, input, output);
      && (cost.Some? <==> (input.Some? || output.Some?) && exists price :: Applies(lib, prices, provider, model, price))
      && (cost.Some? ==>
            exists price :: Applies(lib, prices, provider, model, price) && PricedAt(cost.value, price, OrZero(input), OrZero(output)))
  {
    AppliesIs(lib, prices, provider, model);
    var exact, any := FirstPrice(prices, ForModel(lib, provider, model)), FirstPrice(prices, ForAnyModel(lib, provider));
    var price := if exact.Some? then exact else any;
    hide FirstPrice, Applies, ForModel, ForAnyModel, AmountAt, Round8, IsPriced;
    var cost := CalculatedCost(lib, prices, provider, model, input, output);
    if cost.Some? {
      assert Applies(lib, prices, provider, model, price.value);
      RoundedAmount(price.value, OrZero(input), OrZero(output));
      assert PricedAt(cost.value, price.value, OrZero(input), OrZero(output));
    }
  }

  // ----- failure -----

  ghost predicate NamesFailure(lib: Library, status: Json) {
    && status.JStr?
    && (|| lib.fold(status.text) == "error" || lib.fold(status.text) == "failed"
        || lib.fold(status.text) == "rejected" || lib.fold(status.text) == "canceled")
  }

  /** The payload says that the call failed: explicitly, by an error, by a return code other than 0, or by the name
      of its status. */
  lemma FailedExactlyWhen(lib: Library, payload: Json)
    ensures PayloadFailed(lib, payload) <==>
      || Get(payload, "ok") == JBool(false) || Get(payload, "is_error") == JBool(true) || Has(payload, "error")
      || (Integer(lib, Get(payload, "return_code")).Some? && Integer(lib, Get(payload, "return_code")) != Some(0))
      || NamesFailure(lib, Get(payload, "status"))
  {
    hide Integer, Get, Has;
  }

  /** A process that was ended by a signal has a negative return code, and its call counts as a success. */
  lemma SignalledIsSuccess(setup: Setup, usage: Found, started: Option<real>, call: Call, code: int)
    requires call.payload == JObj([Entry("return_code", JInt(code))])
    ensures Terminal(call.payload)
    ensures MakerOf(setup)(usage, started, call).outcome == if code > 0 then "failure" else "success"
  {
    var payload := call.payload;
    assert payload.entries[1..] == [];
    assert |"return_code"| == 11 && |"method"| == 6 && |"ok"| == 2 && |"is_error"| == 8 && |"error"| == 5 && |"status"| == 6;
    assert Get(payload, "return_code") == JInt(code) && Has(payload, "return_code");
    assert !Has(payload, "method") && !Has(payload, "error");
    assert Get(payload, "ok") == Get(payload, "is_error") == Get(payload, "status") == JNull;
    hide Get, Has;
    FailedExactlyWhen(setup.lib, payload);
    TerminalExactlyWhen(payload);
    EventTells(setup, usage, started, call);
    hide EventOf, PayloadFailed, Terminal;
  }

  /** The payload ends the call: it is no notification or request, and it has a reason for stopping in its result,
      or an error and an id, or one of the fields that only final payloads have. */
  lemma TerminalExactlyWhen(payload: Json)
    ensures Terminal(payload) <==>
      && !Has(payload, "method")
      && (|| Has(Get(payload, "result"), "stopReason") || Has(Get(payload, "result"), "stop_reason")
          || (Has(payload, "error") && Has(payload, "id"))
          || Has(payload, "return_code") || Has(payload, "request_id") || Has(payload, "patch_sha256")
          || Has(payload, "status") || Has(payload, "ok") || Has(payload, "is_error") || Has(payload, "total_cost_usd")
          || Has(payload, "duration_ms") || Has(payload, "durationMs") || Has(payload, "latency_ms"))
  {
    hide Has, Get;
    assert TerminalKeys[0] == "return_code" && TerminalKeys[1] == "request_id" && TerminalKeys[2] == "patch_sha256"
      && TerminalKeys[3] == "status" && TerminalKeys[4] == "ok" && TerminalKeys[5] == "is_error"
      && TerminalKeys[6] == "total_cost_usd" && TerminalKeys[7] == "duration_ms" && TerminalKeys[8] == "durationMs"
      && TerminalKeys[9] == "latency_ms" && |TerminalKeys| == 10;
    forall key ensures key in TerminalKeys <==> exists i :: 0 <= i < 10 && TerminalKeys[i] == key {
    }
  }

  // ----- the event -----

  /** The name reported in the usage, or the configured one if none is. */
  ghost predicate Named(lib: Library, reported: Json, configured: string, name: string) {
    name == if Truthy(reported) then lib.show(reported) else configured
  }

  /** Milliseconds from the first outgoing payload to this call, whole and not negative. */
  ghost predicate IsElapsed(ms: nat, start: real, now: real) {
    if now <= start then ms == 0 else ms as real <= (now - start) * 1000.0 < ms as real + 1.0
  }

  lemma ElapsedIs(started: Option<real>, call: Call)
    ensures IsElapsed(Elapsed(started, call), if started.Some? && started.value != 0.0 then started.value else call.later, call.now)
  {
  }

  /** The cost of the event: that reported, in its currency in upper case or US dollars; otherwise what is
      calculated, if anything. */
  ghost predicate CostTells(setup: Setup, usage: Found, event: UsageEvent) {
    var lib, reported := setup.lib, Number(setup.lib, Value(usage, "cost_amount"));
    var currency := Value(usage, "cost_currency");
    if reported.Some? then
      && event.costAmount == reported && event.costSource == Some("provider")
      && event.costCurrency == Some(lib.upper(if Truthy(currency) then lib.show(currency) else "USD"))
    else
      var known := event.inputTokens.Some? || event.outputTokens.Some?;
      && event.costAmount.Some? == event.costCurrency.Some? == event.costSource.Some?
      && (event.costAmount.Some? <==> known && exists price :: Applies(lib, setup.prices, event.provider, event.model, price))
      && (event.costAmount.Some? ==>
            && event.costSource == Some("configured_price")
            && exists price :: Applies(lib, setup.prices, event.provider, event.model, price)
                 && PricedAt((event.costAmount.value, event.costCurrency.value), price, OrZero(event.inputTokens), OrZero(event.outputTokens)))
  }

  lemma CostIs(setup: Setup, usage: Found, started: Option<real>, call: Call)
    ensures CostTells(setup, usage, MakerOf(setup)(usage, started, call))
  {
    var lib := setup.lib;
    var input, output := Integer(lib, Value(usage, "input_tokens")), Integer(lib, Value(usage, "output_tokens"));
    var provider := Or(Value(usage, "provider"), lib, setup.context.provider);
    var model := Or(Value(usage, "model"), lib, setup.context.model);
    CalculatedExactlyWhen(lib, setup.prices, provider, model, input, output);
    hide CalculatedCost, Applies, PricedAt, Number, Integer, Value, Text, Elapsed, PayloadFailed, Or;
  }

  /** Who made the call, what was reported as its duration, or how long it took if nothing or zero was, and how it
      ended. */
  lemma EventTells(setup: Setup, usage: Found, started: Option<real>, call: Call)
    ensures var lib, context, event := setup.lib, setup.context, MakerOf(setup)(usage, started, call);
      && event.kind == "invocation" && event.qualityScore == None
      && event.role == context.role && event.agent == context.agent && event.driver == context.driver
      && event.task == context.task && event.run == context.run
      && Named(lib, Value(usage, "provider"), context.provider, event.provider)
      && Named(lib, Value(usage, "model"), context.model, event.model)
      && event.invocation == Text(lib, Value(usage, "invocation_id"))
      && (event.outcome == "failure" <==> PayloadFailed(lib, call.payload))
      && (event.outcome == "success" <==> !PayloadFailed(lib, call.payload))
      && event.durationMs.Some?
      && var reported := Integer(lib, Value(usage, "duration_ms"));
         if reported.Some? && reported.value > 0 then event.durationMs == reported
         else IsElapsed(event.durationMs.value, if started.Some? && started.value != 0.0 then started.value else call.later, call.now)
  {
    ElapsedIs(started, call);
    assert "failure"[0] != "success"[0];
    hide CalculatedCost, Number, Integer, Value, Text, Elapsed, PayloadFailed, IsElapsed, Currency;
  }
}
