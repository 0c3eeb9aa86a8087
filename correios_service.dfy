/** CorreiosService: normalises the shipment into what the carrier accepts (weight in
    whole kilograms, dimensions in centimetres, each clamped to the configured bounds,
    a declared value floored at the configured minimum), resolves the origin postal
    code, decodes the enabled services, and calls the carrier once per service. */
module CorreiosService {
  import opened Wrappers
  import opened Text
  import opened Domain

  /** `AcceptedDimensions(decimal, decimal, decimal)`: `Math.Min(Math.Max(value, minimum), maximum)`. */
  function AcceptedDimensions(value: real, minimum: real, maximum: real): (r: real)
    ensures r <= maximum
    ensures minimum <= maximum ==> minimum <= r
    ensures minimum <= value <= maximum ==> r == value
    ensures value >= maximum ==> r == maximum
    ensures value <= minimum <= maximum ==> r == minimum
    ensures maximum < minimum ==> r == maximum
  {
    var atLeast := if value >= minimum then value else minimum;
    if atLeast <= maximum then atLeast else maximum
  }

  /** `AcceptedDimensions(int, int, int)`, the same clamp on integers, used for the weight. */
  function AcceptedDimensionsInt(value: int, minimum: int, maximum: int): (r: int)
    ensures r <= maximum
    ensures minimum <= maximum ==> minimum <= r
    ensures minimum <= value <= maximum ==> r == value
    ensures value >= maximum ==> r == maximum
    ensures value <= minimum <= maximum ==> r == minimum
    ensures maximum < minimum ==> r == maximum
  {
    var atLeast := if value >= minimum then value else minimum;
    if atLeast <= maximum then atLeast else maximum
  }

  /** Clamping twice is clamping once, whatever the bounds. */
  lemma AcceptedDimensionsIdempotent(value: real, minimum: real, maximum: real)
    ensures AcceptedDimensions(AcceptedDimensions(value, minimum, maximum), minimum, maximum)
         == AcceptedDimensions(value, minimum, maximum)
  {
  }

  lemma AcceptedDimensionsIntIdempotent(value: int, minimum: int, maximum: int)
    ensures AcceptedDimensionsInt(AcceptedDimensionsInt(value, minimum, maximum), minimum, maximum)
         == AcceptedDimensionsInt(value, minimum, maximum)
  {
  }

  /** `Math.Ceiling`: the least integer not below `x`. */
  function Ceiling(x: real): (c: int)
    ensures c as real - 1.0 < x <= c as real
  {
    if x.Floor as real == x then x.Floor else x.Floor + 1
  }

  /** `GetWeight`: the total weight converted to kilograms, rounded up to a whole
      kilogram and clamped to [MinimumWeight, MaximumWeight]; it throws when the "kg"
      measure cannot be loaded. */
  function GetWeight(request: ShippingRequest, settings: CorreiosSettings, env: Collaborators): (r: Result<int>)
    ensures r.Failure? <==> !env.weightUnitFound
    ensures r.Failure? ==> r.error == WeightUnitMissing
    ensures r.Success? && settings.minimumWeight <= settings.maximumWeight ==>
              settings.minimumWeight <= r.value <= settings.maximumWeight
    ensures r.Success? ==>
              var kg := env.toKilograms(env.totalWeight(request));
              && ((settings.minimumWeight - 1) as real < kg <= settings.maximumWeight as real ==>
                    r.value as real - 1.0 < kg <= r.value as real)
              && (kg > settings.maximumWeight as real ==> r.value == settings.maximumWeight)
    ensures r.Success? ==>
              r.value == AcceptedDimensionsInt(Ceiling(env.toKilograms(env.totalWeight(request))),
                                               settings.minimumWeight, settings.maximumWeight)
  {
    if !env.weightUnitFound then Failure(WeightUnitMissing)
    else
      var kg := env.toKilograms(env.totalWeight(request));
      Success(AcceptedDimensionsInt(Ceiling(kg), settings.minimumWeight, settings.maximumWeight))
  }

  /** `GetDimensions`: length, height and width converted to centimetres, each clamped to
      its own bounds; it throws when the "centimeter" measure cannot be loaded. */
  function GetDimensions(items: seq<Item>, settings: CorreiosSettings, env: Collaborators): (r: Result<Dimensions>)
    ensures r.Failure? <==> !env.dimensionUnitFound
    ensures r.Failure? ==> r.error == DimensionUnitMissing
    ensures r.Success? ==>
              var raw := env.dimensionsOf(items);
              && r.value.length == AcceptedDimensions(env.toCentimeters(raw.length), settings.minimumLength, settings.maximumLength)
              && r.value.height == AcceptedDimensions(env.toCentimeters(raw.height), settings.minimumHeight, settings.maximumHeight)
              && r.value.width == AcceptedDimensions(env.toCentimeters(raw.width), settings.minimumWidth, settings.maximumWidth)
    ensures r.Success? && settings.minimumLength <= settings.maximumLength ==>
              settings.minimumLength <= r.value.length <= settings.maximumLength
    ensures r.Success? && settings.minimumHeight <= settings.maximumHeight ==>
              settings.minimumHeight <= r.value.height <= settings.maximumHeight
    ensures r.Success? && settings.minimumWidth <= settings.maximumWidth ==>
              settings.minimumWidth <= r.value.width <= settings.maximumWidth
  {
    if !env.dimensionUnitFound then Failure(DimensionUnitMissing)
    else
      var raw := env.dimensionsOf(items);
      var length := AcceptedDimensions(env.toCentimeters(raw.length), settings.minimumLength, settings.maximumLength);
      var height := AcceptedDimensions(env.toCentimeters(raw.height), settings.minimumHeight, settings.maximumHeight);
      var width := AcceptedDimensions(env.toCentimeters(raw.width), settings.minimumWidth, settings.maximumWidth);
      Success(Dimensions(width, length, height))
  }

  /** `GetConvertedRate`: the cross-currency conversion is disabled, so the rate passes through. */
  function GetConvertedRate(rate: real): (r: real)
    ensures r == rate
  {
    rate
  }

  /** `GetConvertedRateFromPrimaryCurrency` and `GetConvertedRateToPrimaryCurrency`: both
      look up the "BRL" currency, throwing when it is missing, and then pass the rate
      through `GetConvertedRate`, so the two directions coincide. */
  function ConvertRate(rate: real, env: Collaborators): (r: Result<real>)
    ensures r.Success? <==> env.currencyFound
    ensures r.Failure? ==> r.error == CurrencyMissing
    ensures r.Success? ==> r.value == rate
  {
    if !env.currencyFound then Failure(CurrencyMissing) else Success(GetConvertedRate(rate))
  }

  /** The products of the items, in order. */
  function Products(items: seq<Item>): (ps: seq<Product>)
    ensures |ps| == |items|
    ensures forall k :: 0 <= k < |items| ==> ps[k] == items[k].product
  {
    seq(|items|, k requires 0 <= k < |items| => items[k].product)
  }

  /** `Sum(p => p.Price)`: unit prices added up, not weighted by any quantity. */
  function SumPrices(products: seq<Product>): (total: real)
    ensures |products| == 1 ==> total == products[0].price
    ensures (forall k :: 0 <= k < |products| ==> products[k].price >= 0.0) ==> total >= 0.0
  {
    if |products| == 0 then 0.0
    else SumPrices(products[..|products| - 1]) + products[|products| - 1].price
  }

  /** The sum over two batches of products is the sum of the two sums. */
  lemma {:induction false} SumPricesAppend(first: seq<Product>, second: seq<Product>)
    ensures SumPrices(first + second) == SumPrices(first) + SumPrices(second)
    decreases |second|
  {
    if |second| > 0 {
      var init := second[..|second| - 1];
      assert (first + second)[..|first + second| - 1] == first + init;
      SumPricesAppend(first, init);
    } else {
      assert first + second == first;
    }
  }

  /** The declared value depends on the products alone: two shipments with the same
      products in the same order, whatever their quantities, declare the same value. */
  lemma DeclaredValueIgnoresQuantities(items: seq<Item>, others: seq<Item>, settings: CorreiosSettings, env: Collaborators)
    requires |items| == |others|
    requires forall k :: 0 <= k < |items| ==> items[k].product == others[k].product
    ensures GetDeclaredValue(items, settings, env) == GetDeclaredValue(others, settings, env)
  {
    assert Products(items) == Products(others);
  }

  /** `GetDeclaredValue`: the larger of the summed product prices and DeclaredMinimumValue;
      the currency lookup may throw. */
  function GetDeclaredValue(items: seq<Item>, settings: CorreiosSettings, env: Collaborators): (r: Result<real>)
    ensures r.Success? <==> env.currencyFound
    ensures r.Failure? ==> r.error == CurrencyMissing
    ensures r.Success? ==>
              && r.value >= settings.declaredMinimumValue
              && r.value >= SumPrices(Products(items))
              && (r.value == settings.declaredMinimumValue || r.value == SumPrices(Products(items)))
  {
    var declared :- ConvertRate(SumPrices(Products(items)), env);
    Success(if declared >= settings.declaredMinimumValue then declared else settings.declaredMinimumValue)
  }

  /** The warehouse's postal code, when a warehouse is given and its address has a non-empty one. */
  function WarehouseZip(request: ShippingRequest, env: Collaborators): (zip: Option<string>)
    ensures zip.Some? ==> zip.value != ""
    ensures zip.Some? <==> && request.warehouseFrom.Some?
                           && request.warehouseFrom.value.addressId in env.addresses
                           && env.addresses[request.warehouseFrom.value.addressId].zipPostalCode.Some?
                           && env.addresses[request.warehouseFrom.value.addressId].zipPostalCode.value != ""
    ensures zip.Some? ==> zip == env.addresses[request.warehouseFrom.value.addressId].zipPostalCode
  {
    if request.warehouseFrom.Some?
      && request.warehouseFrom.value.addressId in env.addresses
      && env.addresses[request.warehouseFrom.value.addressId].zipPostalCode.Some?
      && env.addresses[request.warehouseFrom.value.addressId].zipPostalCode.value != ""
    then env.addresses[request.warehouseFrom.value.addressId].zipPostalCode
    else None
  }

  /** `GetZipPostalCodeFrom`: the warehouse's zip first, then the request's own, then the settings'. */
  function GetZipPostalCodeFrom(request: ShippingRequest, settings: CorreiosSettings, env: Collaborators): (zip: string)
    ensures WarehouseZip(request, env).Some? ==> zip == WarehouseZip(request, env).value
    ensures WarehouseZip(request, env).None? && request.zipPostalCodeFrom != "" ==> zip == request.zipPostalCodeFrom
    ensures WarehouseZip(request, env).None? && request.zipPostalCodeFrom == "" ==> zip == settings.postalCodeFrom
    ensures zip == "" ==> settings.postalCodeFrom == ""
  {
    match WarehouseZip(request, env)
    case Some(z) => z
    case None => if request.zipPostalCodeFrom != "" then request.zipPostalCodeFrom else settings.postalCodeFrom
  }

  /** One token of the stored service list to a service id: `Remove(0, 1)` drops the
      opening bracket, `Replace("]", "")` every closing one. */
  function TokenCode(token: string): (code: string)
    requires |token| >= 1
    ensures code == RemoveAll(token[1..], ']')
    ensures ']' !in code
    ensures |code| < |token|
    ensures ']' !in token[1..] ==> code == token[1..]
  {
    RemoveAll(token[1..], ']')
  }

  function TokenCodes(tokens: seq<string>): (codes: seq<string>)
    requires "" !in tokens
    ensures |codes| == |tokens|
    ensures forall k :: 0 <= k < |tokens| ==> codes[k] == TokenCode(tokens[k])
  {
    seq(|tokens|, k requires 0 <= k < |tokens| => TokenCode(tokens[k]))
  }

  /** The tokens of the stored list: one trailing ':' dropped, then split on ':'. */
  function ServiceTokens(servicesOffered: string): (tokens: seq<string>)
    ensures |tokens| >= 1
    ensures forall k :: 0 <= k < |tokens| ==> ':' !in tokens[k]
  {
    Split(RemoveLastIfEndsWith(servicesOffered, ':'), ':')
  }

  /** What `GetSelectecServices` computes: one id per token, in order; `Remove(0, 1)` throws
      on an empty token, so an empty list or an empty token between separators fails. */
  function DecodeServices(servicesOffered: string): (r: Result<seq<string>>)
    ensures r.Failure? <==> "" in ServiceTokens(servicesOffered)
    ensures r.Failure? ==> r.error == ArgumentOutOfRange
    ensures r.Success? ==> r.value == TokenCodes(ServiceTokens(servicesOffered))
    ensures r.Success? ==>
              && |r.value| == |ServiceTokens(servicesOffered)|
              && forall k :: 0 <= k < |r.value| ==> ']' !in r.value[k] && ':' !in r.value[k]
  {
    var tokens := ServiceTokens(servicesOffered);
    if "" in tokens then Failure(ArgumentOutOfRange)
    else
      var codes := TokenCodes(tokens);
      assert forall k :: 0 <= k < |codes| ==> ':' !in tokens[k][1..];
      Success(codes)
  }

  /** The stored list is the empty string (null or empty): decoding throws. */
  lemma DecodeEmptyFails()
    ensures DecodeServices("").Failure?
  {
    assert ServiceTokens("") == [""];
  }

  /** `GetSelectecServices`: builds the id list token by token. */
  method GetSelectecServices(settings: CorreiosSettings) returns (r: Result<seq<string>>)
    ensures r == DecodeServices(settings.servicesOffered)
  {
    var tokens := ServiceTokens(settings.servicesOffered);
    var services: seq<string> := [];
    for i := 0 to |tokens|
      invariant "" !in tokens[..i]
      invariant services == TokenCodes(tokens[..i])
    {
      if tokens[i] == "" {
        return Failure(ArgumentOutOfRange);
      }
      assert tokens[..i + 1] == tokens[..i] + [tokens[i]];
      services := services + [TokenCode(tokens[i])];
    }
    assert tokens[..|tokens|] == tokens;
    return Success(services);
  }

  /** One call for each service id, in order, with the same shipment data. */
  function Calls(base: GatewayCall, codes: seq<string>): (calls: seq<GatewayCall>)
    ensures |calls| == |codes|
    ensures forall k :: 0 <= k < |codes| ==> calls[k] == base.(serviceCode := codes[k])
  {
    seq(|codes|, k requires 0 <= k < |codes| => base.(serviceCode := codes[k]))
  }

  /** The calls made in order, their services concatenated; the first call that throws
      ends the loop and the results gathered so far are lost. */
  function Gather(calls: seq<GatewayCall>, gateway: GatewayCall -> Result<seq<Servico>>): (r: Result<seq<Servico>>)
    ensures |calls| == 0 ==> r == Success([])
    ensures |calls| > 0 && gateway(calls[0]).Failure? ==> r == Failure(gateway(calls[0]).error)
    ensures r.Failure? ==>
              exists k :: 0 <= k < |calls| && gateway(calls[k]) == Failure(r.error)
                          && forall j :: 0 <= j < k ==> gateway(calls[j]).Success?
    decreases |calls|
  {
    if |calls| == 0 then Success([])
    else
      var first :- gateway(calls[0]);
      var rest :- Gather(calls[1..], gateway);
      Success(first + rest)
  }

  /** `Prepend(done, r)`: `done` in front of a successful `r`; a failure passes through. */
  function Prepend(done: seq<Servico>, r: Result<seq<Servico>>): Result<seq<Servico>> {
    match r
    case Success(rest) => Success(done + rest)
    case Failure(e) => Failure(e)
  }

  /** Gathering succeeds exactly when every call succeeds. */
  lemma {:induction false} GatherAllOrNothing(calls: seq<GatewayCall>, gateway: GatewayCall -> Result<seq<Servico>>)
    ensures Gather(calls, gateway).Success? <==> forall k :: 0 <= k < |calls| ==> gateway(calls[k]).Success?
    decreases |calls|
  {
    if |calls| > 0 {
      GatherAllOrNothing(calls[1..], gateway);
      assert forall k :: 1 <= k < |calls| ==> calls[1..][k - 1] == calls[k];
    }
  }

  /** The services of all calls, concatenated in call order. */
  function Concat(results: seq<seq<Servico>>): seq<Servico> {
    if |results| == 0 then [] else results[0] + Concat(results[1..])
  }

  /** When every call succeeds, the result is their services concatenated in call order. */
  lemma {:induction false} GatherConcatenates(calls: seq<GatewayCall>, gateway: GatewayCall -> Result<seq<Servico>>)
    requires forall k :: 0 <= k < |calls| ==> gateway(calls[k]).Success?
    ensures Gather(calls, gateway)
         == Success(Concat(seq(|calls|, k requires 0 <= k < |calls| && gateway(calls[k]).Success? => gateway(calls[k]).value)))
    decreases |calls|
  {
    if |calls| > 0 {
      GatherConcatenates(calls[1..], gateway);
      var all := seq(|calls|, k requires 0 <= k < |calls| && gateway(calls[k]).Success? => gateway(calls[k]).value);
      var tail := seq(|calls[1..]|, k requires 0 <= k < |calls[1..]| && gateway(calls[1..][k]).Success? => gateway(calls[1..][k]).value);
      assert all[1..] == tail;
    }
  }

  /** The shipment data shared by every call, the weight written in decimal. */
  function BaseCall(request: ShippingRequest, settings: CorreiosSettings, zipFrom: string,
                    weight: int, dims: Dimensions, declaredValue: real): (call: GatewayCall)
    requires Complete(request)
    ensures call.companyCode == settings.companyCode && call.password == settings.password
    ensures call.serviceCode == ""
    ensures call.zipFrom == zipFrom && call.zipTo == request.shippingAddress.value.zipPostalCode.value
    ensures call.weight == IntToString(weight)
    ensures (call.length, call.height, call.width) == (dims.length, dims.height, dims.width)
    ensures call.declaredValue == declaredValue
  {
    GatewayCall(settings.companyCode, settings.password, "", zipFrom,
                request.shippingAddress.value.zipPostalCode.value,
                IntToString(weight), dims.length, dims.height, dims.width, declaredValue)
  }

  /** The weight argument as `RequestCorreios` is written: `GetWeight` is not awaited, so
      `weight.ToString()` is the text of a `Task<int>`, that is its runtime type name, whose
      exact spelling depends on the runtime but always starts with "System.". */
  function WeightArgumentAsWritten(): (arg: string)
    ensures |arg| >= 7 && arg[..7] == "System."
  {
    var name := "System." + "Threading.Tasks.Task`1[System.Int32]";
    assert name[..7] == "System.";
    name
  }

  /** The carrier never receives a number as the weight from the code as written, whatever
      the shipment weighs. */
  lemma WeightArgumentNeverNumeric(weight: int)
    ensures WeightArgumentAsWritten() != IntToString(weight)
  {
    var arg := WeightArgumentAsWritten();
    assert arg[0] == arg[..7][0] == 'S';
  }

  /** What `RequestCorreios` computes. Its caller has validated the request, so the items
      and the destination postal code are present. */
  function RequestCorreiosSpec(request: ShippingRequest, settings: CorreiosSettings, env: Collaborators): (r: Result<seq<Servico>>)
    requires Complete(request)
    ensures !env.dimensionUnitFound ==> r == Failure(DimensionUnitMissing)
    ensures env.dimensionUnitFound && !env.weightUnitFound ==> r == Failure(WeightUnitMissing)
    ensures env.dimensionUnitFound && env.weightUnitFound && !env.currencyFound ==> r == Failure(CurrencyMissing)
    ensures (env.dimensionUnitFound && env.weightUnitFound && env.currencyFound
             && "" in ServiceTokens(settings.servicesOffered)) ==> r == Failure(ArgumentOutOfRange)
    ensures r.Success? ==>
              && env.dimensionUnitFound && env.weightUnitFound && env.currencyFound
              && DecodeServices(settings.servicesOffered).Success?
  {
    var zipFrom := GetZipPostalCodeFrom(request, settings, env);
    var dims :- GetDimensions(request.items.value, settings, env);
    var weight :- GetWeight(request, settings, env);
    var declaredValue :- GetDeclaredValue(request.items.value, settings, env);
    var services :- DecodeServices(settings.servicesOffered);
    Gather(Calls(BaseCall(request, settings, zipFrom, weight, dims, declaredValue), services), env.gateway)
  }

  /** Once every lookup resolves and the stored services decode, the operation is the
      carrier fan-out: it succeeds exactly when every per-service call does, and then gives
      the services of all calls in call order. */
  lemma RequestCorreiosFansOut(request: ShippingRequest, settings: CorreiosSettings, env: Collaborators)
    requires Complete(request)
    requires env.dimensionUnitFound && env.weightUnitFound && env.currencyFound
    requires DecodeServices(settings.servicesOffered).Success?
    ensures var calls := Calls(BaseCall(request, settings, GetZipPostalCodeFrom(request, settings, env),
                                        GetWeight(request, settings, env).value,
                                        GetDimensions(request.items.value, settings, env).value,
                                        GetDeclaredValue(request.items.value, settings, env).value),
                               DecodeServices(settings.servicesOffered).value);
            && RequestCorreiosSpec(request, settings, env) == Gather(calls, env.gateway)
            && (RequestCorreiosSpec(request, settings, env).Success? <==>
                  forall k :: 0 <= k < |calls| ==> env.gateway(calls[k]).Success?)
  {
    var calls := Calls(BaseCall(request, settings, GetZipPostalCodeFrom(request, settings, env),
                                GetWeight(request, settings, env).value,
                                GetDimensions(request.items.value, settings, env).value,
                                GetDeclaredValue(request.items.value, settings, env).value),
                       DecodeServices(settings.servicesOffered).value);
    GatherAllOrNothing(calls, env.gateway);
  }

  /** `RequestCorreios` as written: `GetWeight` is never awaited, so the "kg" lookup inside
      it cannot fail the call, and every call carries the text of the unawaited `Task<int>`
      as the weight. */
  function RequestCorreiosAsWritten(request: ShippingRequest, settings: CorreiosSettings, env: Collaborators)
    : (r: Result<seq<Servico>>)
    requires Complete(request)
    ensures !env.dimensionUnitFound ==> r == Failure(DimensionUnitMissing)
    ensures env.dimensionUnitFound && !env.currencyFound ==> r == Failure(CurrencyMissing)
    ensures r.Failure? ==> r.error != WeightUnitMissing || exists call :: env.gateway(call) == Failure(WeightUnitMissing)
  {
    var zipFrom := GetZipPostalCodeFrom(request, settings, env);
    var dims :- GetDimensions(request.items.value, settings, env);
    var declaredValue :- GetDeclaredValue(request.items.value, settings, env);
    var services :- DecodeServices(settings.servicesOffered);
    var base := BaseCall(request, settings, zipFrom, 0, dims, declaredValue).(weight := WeightArgumentAsWritten());
    Gather(Calls(base, services), env.gateway)
  }

  /** A missing "kg" unit fails the intended operation, while the code as written goes on
      exactly as if the unit had been found. */
  lemma MissingKgIgnoredAsWritten(request: ShippingRequest, settings: CorreiosSettings, env: Collaborators)
    requires Complete(request)
    ensures RequestCorreiosAsWritten(request, settings, env)
         == RequestCorreiosAsWritten(request, settings, env.(weightUnitFound := true))
    ensures env.dimensionUnitFound && !env.weightUnitFound ==>
              RequestCorreiosSpec(request, settings, env) == Failure(WeightUnitMissing)
  {
  }

  /** Splicing two finished prefixes in front of a gathering result. */
  lemma PrependTwice(first: seq<Servico>, second: seq<Servico>, r: Result<seq<Servico>>)
    ensures Prepend(first, Prepend(second, r)) == Prepend(first + second, r)
  {
    if r.Success? {
      assert first + (second + r.value) == (first + second) + r.value;
    }
  }

  /** `RequestCorreios`: resolves the origin, normalises the shipment, decodes the enabled
      services and calls the carrier once per service, in order, concatenating the results. */
  method RequestCorreios(request: ShippingRequest, settings: CorreiosSettings, env: Collaborators)
    returns (r: Result<seq<Servico>>)
    requires Complete(request)
    ensures r == RequestCorreiosSpec(request, settings, env)
  {
    var zipFrom := GetZipPostalCodeFrom(request, settings, env);
    var dims :- GetDimensions(request.items.value, settings, env);
    var weight :- GetWeight(request, settings, env);
    var declaredValue :- GetDeclaredValue(request.items.value, settings, env);
    var services :- GetSelectecServices(settings);
    var calls := Calls(BaseCall(request, settings, zipFrom, weight, dims, declaredValue), services);
    var gathered: seq<Servico> := [];
    assert calls[0..] == calls;
    assert Prepend([], Gather(calls, env.gateway)) == Gather(calls, env.gateway) by {
      var g := Gather(calls, env.gateway);
      if g.Success? {
        assert [] + g.value == g.value;
      }
    }
    for i := 0 to |calls|
      invariant Gather(calls, env.gateway) == Prepend(gathered, Gather(calls[i..], env.gateway))
    {
      assert calls[i..][1..] == calls[i + 1..];
      assert calls[i..][0] == calls[i];
      var quoted :- env.gateway(calls[i]);
      PrependTwice(gathered, quoted, Gather(calls[i + 1..], env.gateway));
      gathered := gathered + quoted;
    }
    assert calls[|calls|..] == [];
    assert gathered + [] == gathered;
    return Success(gathered);
  }

  /** A product the carrier refuses: longer, taller or wider, in centimetres, than the maxima. */
  predicate Oversized(product: Product, settings: CorreiosSettings, env: Collaborators)
    ensures Oversized(product, settings, env) <==>
              || AcceptedDimensions(env.toCentimeters(product.length), settings.minimumLength, settings.maximumLength)
                   < env.toCentimeters(product.length)
              || AcceptedDimensions(env.toCentimeters(product.height), settings.minimumHeight, settings.maximumHeight)
                   < env.toCentimeters(product.height)
              || AcceptedDimensions(env.toCentimeters(product.width), settings.minimumWidth, settings.maximumWidth)
                   < env.toCentimeters(product.width)
  {
    || env.toCentimeters(product.length) > settings.maximumLength
    || env.toCentimeters(product.height) > settings.maximumHeight
    || env.toCentimeters(product.width) > settings.maximumWidth
  }

  /** `DenyProductShipping`: true when some product is oversized; otherwise true exactly
      when the summed prices exceed 3000. */
  method DenyProductShipping(products: seq<Product>, settings: CorreiosSettings, env: Collaborators)
    returns (r: Result<bool>)
    ensures !env.dimensionUnitFound ==> r == Failure(DimensionUnitMissing)
    ensures env.dimensionUnitFound && (exists k :: 0 <= k < |products| && Oversized(products[k], settings, env)) ==>
              r == Success(true)
    ensures env.dimensionUnitFound && (forall k :: 0 <= k < |products| ==> !Oversized(products[k], settings, env)) ==>
              r == if env.currencyFound then Success(SumPrices(products) > 3000.0) else Failure(CurrencyMissing)
  {
    if !env.dimensionUnitFound {
      return Failure(DimensionUnitMissing);
    }
    for i := 0 to |products|
      invariant forall k :: 0 <= k < i ==> !Oversized(products[k], settings, env)
    {
      var length := env.toCentimeters(products[i].length);
      var height := env.toCentimeters(products[i].height);
      var width := env.toCentimeters(products[i].width);
      if length > settings.maximumLength || height > settings.maximumHeight || width > settings.maximumWidth {
        return Success(true);
      }
    }
    var total := SumPrices(products);
    var declaredValue :- ConvertRate(total, env);
    return Success(declaredValue > 3000.0);
  }
}
