/** CorreiosComputationMethod: validates the request, asks the service for the carrier's
    per-service results, turns each result that passes validation into a priced, named
    shipping option, and falls back to the configured default option when none survives. */
module CorreiosComputationMethod {
  import opened Wrappers
  import opened Text
  import opened Domain
  import opened ServiceTypes
  import opened CorreiosService

  /** GetShippingOptionResponse: the errors and options, appended to in place. */
  class ShippingOptionResponse {
    var errors: seq<string>
    var shippingOptions: seq<ShippingOption>

    constructor ()
      ensures errors == [] && shippingOptions == []
    {
      errors := [];
      shippingOptions := [];
    }

    method AddError(error: string)
      modifies this
      ensures errors == old(errors) + [error]
      ensures shippingOptions == old(shippingOptions)
    {
      errors := errors + [error];
    }

    method AddOption(option: ShippingOption)
      modifies this
      ensures shippingOptions == old(shippingOptions) + [option]
      ensures errors == old(errors)
    {
      shippingOptions := shippingOptions + [option];
    }
  }

  /** What the caller receives: the response's errors and options. */
  datatype ShippingResponse = ShippingResponse(errors: seq<string>, options: seq<ShippingOption>)

  /** The errors for the missing fields of a request with an address, in check order. */
  function MissingFields(request: ShippingRequest): (errors: seq<string>)
    requires request.shippingAddress.Some?
    ensures |errors| <= 4
    ensures errors == [] <==> (&& request.items.Some?
                               && request.shippingAddress.value.countryId.Some?
                               && request.shippingAddress.value.stateProvinceId.Some?
                               && request.shippingAddress.value.zipPostalCode.Some?)
    ensures request.items.None? ==> errors[0] == NoShipmentItems
    ensures request.shippingAddress.value.zipPostalCode.None? ==> errors[|errors| - 1] == PostalCodeNotSet
  {
    var address := request.shippingAddress.value;
    (if request.items.None? then [NoShipmentItems] else [])
      + (if address.countryId.None? then [CountryNotSet] else [])
      + (if address.stateProvinceId.None? then [StateNotSet] else [])
      + (if address.zipPostalCode.None? then [PostalCodeNotSet] else [])
  }

  /** The errors `ValidateRequest` adds, one per missing field; a missing address makes the
      checks after it dereference null and throw. */
  function RequestErrors(request: ShippingRequest): (r: Result<seq<string>>)
    ensures r.Failure? <==> request.shippingAddress.None?
    ensures r.Failure? ==> r.error == NullReference
    ensures r.Success? ==>
              var address := request.shippingAddress.value;
              && (NoShipmentItems in r.value <==> request.items.None?)
              && (CountryNotSet in r.value <==> address.countryId.None?)
              && (StateNotSet in r.value <==> address.stateProvinceId.None?)
              && (PostalCodeNotSet in r.value <==> address.zipPostalCode.None?)
              && (forall e :: e in r.value ==> e in [NoShipmentItems, CountryNotSet, StateNotSet, PostalCodeNotSet])
              && (forall i, j :: 0 <= i < j < |r.value| ==> r.value[i] != r.value[j])
    ensures r.Success? ==> (r.value == [] <==> (&& Complete(request)
                                                && request.shippingAddress.value.countryId.Some?
                                                && request.shippingAddress.value.stateProvinceId.Some?))
  {
    if request.shippingAddress.None? then Failure(NullReference)
    else
      FieldMessagesDistinct();
      Success(MissingFields(request))
  }

  /** The four messages for missing fields differ from one another. */
  lemma FieldMessagesDistinct()
    ensures NoShipmentItems != CountryNotSet && NoShipmentItems != StateNotSet && NoShipmentItems != PostalCodeNotSet
    ensures CountryNotSet != StateNotSet && CountryNotSet != PostalCodeNotSet
    ensures StateNotSet != PostalCodeNotSet
  {
  }

  /** `ValidateRequest`: adds the errors for the missing fields to the response and
      reports whether the response holds no error. */
  method ValidateRequest(request: ShippingRequest, response: ShippingOptionResponse) returns (r: Result<bool>)
    modifies response
    ensures response.shippingOptions == old(response.shippingOptions)
    ensures request.shippingAddress.None? ==>
              && r == Failure(NullReference)
              && response.errors == old(response.errors) + (if request.items.None? then [NoShipmentItems] else []) + [AddressNotSet]
    ensures request.shippingAddress.Some? ==>
              && response.errors == old(response.errors) + MissingFields(request)
              && r == Success(response.errors == [])
  {
    ghost var start := response.errors;
    if request.items.None? {
      response.AddError(NoShipmentItems);
    }
    ghost var items := if request.items.None? then [NoShipmentItems] else [];
    assert response.errors == start + items;
    if request.shippingAddress.None? {
      response.AddError(AddressNotSet);
      return Failure(NullReference);
    }
    var address := request.shippingAddress.value;
    if address.countryId.None? {
      response.AddError(CountryNotSet);
    }
    ghost var country := if address.countryId.None? then [CountryNotSet] else [];
    assert response.errors == start + items + country;
    if address.stateProvinceId.None? {
      response.AddError(StateNotSet);
    }
    ghost var state := if address.stateProvinceId.None? then [StateNotSet] else [];
    assert response.errors == start + items + country + state;
    if address.zipPostalCode.None? {
      response.AddError(PostalCodeNotSet);
    }
    ghost var zip := if address.zipPostalCode.None? then [PostalCodeNotSet] else [];
    assert response.errors == start + items + country + state + zip;
    assert MissingFields(request) == items + country + state + zip;
    assert start + items + country + state + zip == start + (items + country + state + zip);
    return Success(|response.errors| <= 0);
  }

  /** `ApplyAdditionalFee`: the rate times PercentageShippingFee when that is positive,
      the rate itself otherwise. */
  function ApplyAdditionalFee(rate: real, settings: CorreiosSettings): (r: real)
    ensures settings.percentageShippingFee > 0.0 ==> r == rate * settings.percentageShippingFee
    ensures settings.percentageShippingFee <= 0.0 ==> r == rate
    ensures rate > 0.0 ==> r > 0.0
  {
    if settings.percentageShippingFee > 0.0 then rate * settings.percentageShippingFee else rate
  }

  /** `CalcPrazoEntrega`: the carrier's days plus AddDaysForDelivery when that is positive,
      added in unchecked 32-bit `int` arithmetic. */
  function CalcPrazoEntrega(prazoEntrega: int, settings: CorreiosSettings): (prazo: int)
    ensures settings.addDaysForDelivery <= 0 ==> prazo == prazoEntrega
    ensures settings.addDaysForDelivery > 0 ==> -0x8000_0000 <= prazo < 0x8000_0000
    ensures settings.addDaysForDelivery > 0 && -0x8000_0000 <= prazoEntrega + settings.addDaysForDelivery < 0x8000_0000 ==>
              prazo == prazoEntrega + settings.addDaysForDelivery && prazo > prazoEntrega
    ensures && 0 < settings.addDaysForDelivery < 0x8000_0000 && prazoEntrega < 0x8000_0000
            && prazoEntrega + settings.addDaysForDelivery >= 0x8000_0000
            ==> prazo == prazoEntrega + settings.addDaysForDelivery - 0x1_0000_0000
  {
    if settings.addDaysForDelivery > 0 then WrapInt32(prazoEntrega + settings.addDaysForDelivery) else prazoEntrega
  }

  /** A large offset wraps the sum around: 5 carrier days plus 2147483647 come out negative. */
  lemma PrazoWrapsAround(settings: CorreiosSettings)
    requires settings.addDaysForDelivery == 0x7FFF_FFFF
    ensures CalcPrazoEntrega(5, settings) == -2147483644
  {
  }

  /** The part of the option name every option has: "{serviceName} - {prazo} dia(s)". */
  function NameHead(serviceName: string, prazo: int): string {
    serviceName + " - " + IntToString(prazo) + " dia(s)"
  }

  /** Two option heads for the same service agree exactly when their delivery times do. */
  lemma NameHeadDistinguishesDays(serviceName: string, prazo: int, other: int)
    ensures NameHead(serviceName, prazo) == NameHead(serviceName, other) <==> prazo == other
  {
    if NameHead(serviceName, prazo) == NameHead(serviceName, other) {
      var head := NameHead(serviceName, prazo);
      var start := |serviceName| + 3;
      assert IntToString(prazo) == head[start..|head| - 7];
      assert IntToString(other) == NameHead(serviceName, other)[start..|head| - 7];
      IntToStringInjective(prazo, other);
    }
  }

  /** `GetShippingOption`: the name with " - {obs}" appended when there is an observation,
      and the rate passed through the currency hook, which throws when "BRL" is missing. */
  function GetShippingOption(rate: real, serviceName: string, prazo: int, obs: string, env: Collaborators)
    : (r: Result<ShippingOption>)
    ensures r.Success? <==> env.currencyFound
    ensures r.Failure? ==> r.error == CurrencyMissing
    ensures r.Success? ==> r.value.rate == rate
    ensures r.Success? && obs == "" ==> r.value.name == NameHead(serviceName, prazo)
    ensures r.Success? && obs != "" ==> r.value.name == NameHead(serviceName, prazo) + " - " + obs
  {
    var shippingName := NameHead(serviceName, prazo);
    var name := if obs != "" then shippingName + " - " + obs else shippingName;
    var converted :- ConvertRate(rate, env);
    Success(ShippingOption(name, converted))
  }

  /** The carrier's success sentinel: no code, or "0". */
  predicate IsSuccessCode(erro: string)
    ensures IsSuccessCode(erro) ==> |erro| <= 1
  {
    erro == "" || erro == "0"
  }

  /** The codes that still come with a usable quote. */
  predicate IsAdvisoryCode(erro: string)
    ensures IsAdvisoryCode(erro) ==> |erro| == 3 && erro[0] == '0'
    ensures IsAdvisoryCode(erro) ==> !IsSuccessCode(erro)
  {
    erro == "009" || erro == "010" || erro == "011"
  }

  /** `ValidateWSResult`: the observation to show with the option, or the reason the result
      is unusable. A code other than the sentinel and the advisory codes is fatal; then a
      non-positive delivery time; then a non-positive price. */
  function ValidateWSResult(servico: Servico): (r: Result<string>)
    ensures !IsSuccessCode(servico.erro) && !IsAdvisoryCode(servico.erro) ==>
              r == Failure(servico.erro + " - " + servico.msgErro)
    ensures IsSuccessCode(servico.erro) || IsAdvisoryCode(servico.erro) ==>
              && (servico.prazoEntrega <= 0 ==> r == Failure(DeliveryUninformed))
              && (servico.prazoEntrega > 0 && servico.valor <= 0.0 ==> r == Failure(InvalidValueDelivery))
              && (r.Success? <==> servico.prazoEntrega > 0 && servico.valor > 0.0)
    ensures r.Success? && IsSuccessCode(servico.erro) ==> r.value == ""
    ensures r.Success? && IsAdvisoryCode(servico.erro) ==> r.value == servico.msgErro
  {
    if !IsSuccessCode(servico.erro) && !IsAdvisoryCode(servico.erro) then
      Failure(servico.erro + " - " + servico.msgErro)
    else if servico.prazoEntrega <= 0 then Failure(DeliveryUninformed)
    else if servico.valor <= 0.0 then Failure(InvalidValueDelivery)
    else Success(if IsAdvisoryCode(servico.erro) then servico.msgErro else "")
  }

  /** The body of the per-service `try` in `GetShippingOptionsAsync`: validate, then build
      the option from the fee-adjusted price, the service's display name and the
      offset delivery time. */
  function ComposeOption(servico: Servico, settings: CorreiosSettings, env: Collaborators): (r: Result<ShippingOption>)
    ensures r.Success? <==> ValidateWSResult(servico).Success? && env.currencyFound
    ensures r.Success? ==> r.value.rate > 0.0
    ensures r.Success? ==> r.value.rate == ApplyAdditionalFee(servico.valor, settings)
    ensures r.Success? ==>
              var obs := ValidateWSResult(servico).value;
              r.value.name == NameHead(GetServiceName(env.catalog, IntToString(servico.codigo)),
                                       CalcPrazoEntrega(servico.prazoEntrega, settings))
                              + (if obs == "" then "" else " - " + obs)
  {
    var obs :- ValidateWSResult(servico);
    GetShippingOption(ApplyAdditionalFee(servico.valor, settings),
                      GetServiceName(env.catalog, IntToString(servico.codigo)),
                      CalcPrazoEntrega(servico.prazoEntrega, settings), obs, env)
  }

  /** The carrier's code is a number and is looked up by its decimal text, which never has
      a leading zero: when every id in the table is written with one, no result is named. */
  lemma LeadingZeroIdsNeverNamed(catalog: ServiceCatalog, codigo: int)
    requires forall k :: 0 <= k < |catalog.entries| ==> |catalog.entries[k].id| >= 2 && catalog.entries[k].id[0] == '0'
    ensures GetServiceName(catalog, IntToString(codigo)) == ""
  {
  }

  /** The per-service loop over any way of composing one result: one option for each result
      that composes, in result order; a result that fails is skipped. */
  function QuoteEach(servicos: seq<Servico>, compose: Servico -> Result<ShippingOption>): (options: seq<ShippingOption>)
    ensures |options| <= |servicos|
    ensures (forall s :: compose(s).Success? ==> compose(s).value.rate > 0.0) ==>
              forall k :: 0 <= k < |options| ==> options[k].rate > 0.0
  {
    if |servicos| == 0 then []
    else
      QuoteEach(servicos[..|servicos| - 1], compose)
        + match compose(servicos[|servicos| - 1])
          case Success(option) => [option]
          case Failure(_) => []
  }

  /** One more result quoted: its option, if it composes, goes after the others. */
  lemma QuoteEachStep(servicos: seq<Servico>, i: nat, compose: Servico -> Result<ShippingOption>)
    requires i < |servicos|
    ensures var option := compose(servicos[i]);
            QuoteEach(servicos[..i + 1], compose)
              == QuoteEach(servicos[..i], compose) + if option.Success? then [option.value] else []
  {
    assert servicos[..i + 1][..i] == servicos[..i];
  }

  /** Quoting a concatenation quotes each part, in order. */
  lemma {:induction false} QuoteEachAppend(first: seq<Servico>, second: seq<Servico>, compose: Servico -> Result<ShippingOption>)
    ensures QuoteEach(first + second, compose) == QuoteEach(first, compose) + QuoteEach(second, compose)
    decreases |second|
  {
    if |second| == 0 {
      assert first + second == first;
    } else {
      var init := second[..|second| - 1];
      QuoteEachAppend(first, init, compose);
      assert (first + second)[..|first + second| - 1] == first + init;
      assert (first + second)[|first + second| - 1] == second[|second| - 1];
    }
  }

  /** No option comes out exactly when no result composes. */
  lemma {:induction false} QuoteEachEmptyIff(servicos: seq<Servico>, compose: Servico -> Result<ShippingOption>)
    ensures QuoteEach(servicos, compose) == [] <==> forall k :: 0 <= k < |servicos| ==> compose(servicos[k]).Failure?
  {
    if |servicos| > 0 {
      var n := |servicos| - 1;
      var init := servicos[..n];
      QuoteEachEmptyIff(init, compose);
      assert forall k :: 0 <= k < n ==> init[k] == servicos[k];
    }
  }

  /** The per-service loop of `GetShippingOptionsAsync`, each result composed by `ComposeOption`. */
  function QuoteAll(servicos: seq<Servico>, settings: CorreiosSettings, env: Collaborators): (options: seq<ShippingOption>)
    ensures |options| <= |servicos|
    ensures forall k :: 0 <= k < |options| ==> options[k].rate > 0.0
  {
    QuoteEach(servicos, s => ComposeOption(s, settings, env))
  }

  /** One more result quoted by `ComposeOption`. */
  lemma QuoteAllStep(servicos: seq<Servico>, i: nat, settings: CorreiosSettings, env: Collaborators)
    requires i < |servicos|
    ensures var option := ComposeOption(servicos[i], settings, env);
            QuoteAll(servicos[..i + 1], settings, env)
              == QuoteAll(servicos[..i], settings, env) + if option.Success? then [option.value] else []
  {
    QuoteEachStep(servicos, i, s => ComposeOption(s, settings, env));
  }

  /** Quoting a concatenation quotes each part, in order. */
  lemma QuoteAllAppend(first: seq<Servico>, second: seq<Servico>, settings: CorreiosSettings, env: Collaborators)
    ensures QuoteAll(first + second, settings, env) == QuoteAll(first, settings, env) + QuoteAll(second, settings, env)
  {
    QuoteEachAppend(first, second, s => ComposeOption(s, settings, env));
  }

  /** A failing result adds nothing and removes nothing: the options around it stay. */
  lemma QuoteAllSkipsFailure(before: seq<Servico>, failing: Servico, after: seq<Servico>,
                             settings: CorreiosSettings, env: Collaborators)
    requires ComposeOption(failing, settings, env).Failure?
    ensures QuoteAll(before + [failing] + after, settings, env)
         == QuoteAll(before, settings, env) + QuoteAll(after, settings, env)
  {
    var compose := s => ComposeOption(s, settings, env);
    assert QuoteEach([failing], compose) == [] by {
      assert [failing][..0] == [];
    }
    QuoteEachAppend(before, [failing], compose);
    QuoteEachAppend(before + [failing], after, compose);
  }

  /** No option comes out exactly when no result composes. */
  lemma QuoteAllEmptyIff(servicos: seq<Servico>, settings: CorreiosSettings, env: Collaborators)
    ensures QuoteAll(servicos, settings, env) == [] <==>
              forall k :: 0 <= k < |servicos| ==> ComposeOption(servicos[k], settings, env).Failure?
  {
    QuoteEachEmptyIff(servicos, s => ComposeOption(s, settings, env));
  }

  /** The default option, added only when no option exists and both the default rate and the
      default delivery time are positive; it carries the default rate as is (no fee) and no
      observation. Building it may throw when "BRL" is missing. */
  function WithFallback(options: seq<ShippingOption>, settings: CorreiosSettings, env: Collaborators)
    : (r: Result<seq<ShippingOption>>)
    ensures |options| > 0 ==> r == Success(options)
    ensures |options| == 0 && !(settings.shippingRateDefault > 0.0 && settings.qtdDaysForDeliveryDefault > 0) ==>
              r == Success([])
    ensures |options| == 0 && settings.shippingRateDefault > 0.0 && settings.qtdDaysForDeliveryDefault > 0 ==>
              && (r.Success? <==> env.currencyFound)
              && (r.Success? ==> r.value == [ShippingOption(NameHead(settings.serviceNameDefault,
                                                                     settings.qtdDaysForDeliveryDefault),
                                                            settings.shippingRateDefault)])
  {
    if |options| <= 0 && settings.shippingRateDefault > 0.0 && settings.qtdDaysForDeliveryDefault > 0 then
      var option :- GetShippingOption(settings.shippingRateDefault, settings.serviceNameDefault,
                                      settings.qtdDaysForDeliveryDefault, "", env);
      Success([option])
    else Success(options)
  }

  /** The options of a validated request: those of the carrier's results when the service
      call succeeded, none when it threw, and then the fallback. */
  function QuotedOptions(request: ShippingRequest, settings: CorreiosSettings, env: Collaborators): (options: seq<ShippingOption>)
    requires Complete(request)
    ensures forall k :: 0 <= k < |options| ==> options[k].rate > 0.0
    ensures RequestCorreiosSpec(request, settings, env).Failure? ==> options == []
    ensures RequestCorreiosSpec(request, settings, env).Success? ==>
              |options| <= |RequestCorreiosSpec(request, settings, env).value|
  {
    match RequestCorreiosSpec(request, settings, env)
    case Success(servicos) => QuoteAll(servicos, settings, env)
    case Failure(_) => []
  }

  /** What `GetShippingOptionsAsync` computes. */
  function ShippingOptionsSpec(request: Option<ShippingRequest>, settings: CorreiosSettings, env: Collaborators)
    : (r: Result<ShippingResponse>)
    ensures request.None? ==> r == Failure(ArgumentNull)
    ensures r.Success? ==> r.value.errors == [] || r.value.options == []
    ensures r.Success? ==> forall k :: 0 <= k < |r.value.options| ==> r.value.options[k].rate > 0.0
    ensures request.Some? && request.value.shippingAddress.None? ==> r == Failure(NullReference)
  {
    if request.None? then Failure(ArgumentNull)
    else
      var errors :- RequestErrors(request.value);
      if errors != [] then Success(ShippingResponse(errors, []))
      else
        var options :- WithFallback(QuotedOptions(request.value, settings, env), settings, env);
        Success(ShippingResponse([], options))
  }

  /** One turn of the per-service loop: the option of a result that composes is added, and a
      result that fails adds nothing. */
  method AddComposed(response: ShippingOptionResponse, servico: Servico, settings: CorreiosSettings, env: Collaborators)
    returns (ghost added: seq<ShippingOption>)
    modifies response
    ensures added == match ComposeOption(servico, settings, env)
                     case Success(option) => [option]
                     case Failure(_) => []
    ensures response.shippingOptions == old(response.shippingOptions) + added
    ensures response.errors == old(response.errors)
  {
    var option := ComposeOption(servico, settings, env);
    if option.Success? {
      response.AddOption(option.value);
      added := [option.value];
    } else {
      added := [];
    }
  }

  /** The per-service loop of `GetShippingOptionsAsync`: each result that composes adds
      its option, in result order; one that fails is skipped. */
  method AddCarrierOptions(response: ShippingOptionResponse, servicos: seq<Servico>,
                           settings: CorreiosSettings, env: Collaborators)
    modifies response
    ensures response.shippingOptions == old(response.shippingOptions) + QuoteAll(servicos, settings, env)
    ensures response.errors == old(response.errors)
  {
    for i := 0 to |servicos|
      invariant response.errors == old(response.errors)
      invariant response.shippingOptions == old(response.shippingOptions) + QuoteAll(servicos[..i], settings, env)
    {
      ghost var done := QuoteAll(servicos[..i], settings, env);
      QuoteAllStep(servicos, i, settings, env);
      ghost var added := AddComposed(response, servicos[i], settings, env);
      assert old(response.shippingOptions) + done + added == old(response.shippingOptions) + (done + added);
    }
    assert servicos[..|servicos|] == servicos;
  }

  /** `GetShippingOptionsAsync`. */
  method GetShippingOptions(request: Option<ShippingRequest>, settings: CorreiosSettings, env: Collaborators)
    returns (r: Result<ShippingResponse>)
    ensures r == ShippingOptionsSpec(request, settings, env)
  {
    if request.None? {
      return Failure(ArgumentNull);
    }
    var response := new ShippingOptionResponse();
    var valid :- ValidateRequest(request.value, response);
    assert response.errors == RequestErrors(request.value).value == MissingFields(request.value);
    if !valid {
      return Success(ShippingResponse(response.errors, response.shippingOptions));
    }
    var wsResult := RequestCorreios(request.value, settings, env);
    if wsResult.Success? {
      AddCarrierOptions(response, wsResult.value, settings, env);
    }
    ghost var quoted := response.shippingOptions;
    assert quoted == QuotedOptions(request.value, settings, env);
    if |response.shippingOptions| <= 0 && settings.shippingRateDefault > 0.0 && settings.qtdDaysForDeliveryDefault > 0 {
      var option :- GetShippingOption(settings.shippingRateDefault, settings.serviceNameDefault,
                                      settings.qtdDaysForDeliveryDefault, "", env);
      response.AddOption(option);
      assert response.shippingOptions == [option];
    }
    assert WithFallback(quoted, settings, env) == Success(response.shippingOptions);
    return Success(ShippingResponse(response.errors, response.shippingOptions));
  }

  /** An incomplete request (address present) gets one error per missing field and no option. */
  lemma IncompleteRequestHasNoOptions(request: ShippingRequest, settings: CorreiosSettings, env: Collaborators)
    requires request.shippingAddress.Some?
    requires !(Complete(request)
               && request.shippingAddress.value.countryId.Some?
               && request.shippingAddress.value.stateProvinceId.Some?)
    ensures var r := ShippingOptionsSpec(Some(request), settings, env);
            && r.Success?
            && r.value.errors == RequestErrors(request).value != []
            && r.value.options == []
  {
  }

  /** A failing service call loses every carrier result: only the default option can come out. */
  lemma GatewayFailureLeavesFallback(request: ShippingRequest, settings: CorreiosSettings, env: Collaborators)
    requires RequestErrors(request) == Success([])
    requires RequestCorreiosSpec(request, settings, env).Failure?
    ensures ShippingOptionsSpec(Some(request), settings, env) ==
              match WithFallback([], settings, env)
              case Success(options) => Success(ShippingResponse([], options))
              case Failure(e) => Failure(e)
  {
  }

  /** A complete request with a usable default never ends with zero options, whatever the
      carrier does, as long as "BRL" resolves. */
  lemma DefaultGuaranteesAnOption(request: ShippingRequest, settings: CorreiosSettings, env: Collaborators)
    requires RequestErrors(request) == Success([])
    requires settings.shippingRateDefault > 0.0 && settings.qtdDaysForDeliveryDefault > 0
    requires env.currencyFound
    ensures var r := ShippingOptionsSpec(Some(request), settings, env);
            r.Success? && r.value.errors == [] && |r.value.options| >= 1
  {
  }

  /** When the carrier answers, the options are those of the usable results, in result
      order; the default is used only if none is usable. */
  lemma CarrierOptionsInOrder(request: ShippingRequest, settings: CorreiosSettings, env: Collaborators, servicos: seq<Servico>)
    requires RequestErrors(request) == Success([])
    ensures && RequestCorreiosSpec(request, settings, env) == Success(servicos)
            && (exists k :: 0 <= k < |servicos| && ComposeOption(servicos[k], settings, env).Success?)
            ==> ShippingOptionsSpec(Some(request), settings, env) == Success(ShippingResponse([], QuoteAll(servicos, settings, env)))
  {
    QuoteAllEmptyIff(servicos, settings, env);
  }

  /** When the carrier answers but none of its results is usable, the response is what the
      default option alone gives. */
  lemma NothingComposesLeavesFallback(request: ShippingRequest, settings: CorreiosSettings, env: Collaborators,
                                      servicos: seq<Servico>)
    requires RequestErrors(request) == Success([])
    requires RequestCorreiosSpec(request, settings, env) == Success(servicos)
    requires forall k :: 0 <= k < |servicos| ==> ComposeOption(servicos[k], settings, env).Failure?
    ensures ShippingOptionsSpec(Some(request), settings, env) ==
              match WithFallback([], settings, env)
              case Success(options) => Success(ShippingResponse([], options))
              case Failure(e) => Failure(e)
  {
    QuoteAllEmptyIff(servicos, settings, env);
  }

  /** The texts of the example's service code and delivery time. */
  lemma FormatExample()
    ensures IntToString(4510) == "4510" && IntToString(7) == "7"
  {
    assert NatToString(45) == NatToString(4) + [DigitChar(5)] == "45";
    assert NatToString(451) == NatToString(45) + [DigitChar(1)] == "451";
    assert NatToString(4510) == NatToString(451) + [DigitChar(0)] == "4510";
  }

  /** Carrier days 5, offset 2, price 20.00 and fee 1.1 give 7 days and 22.00. */
  lemma QuoteExample(settings: CorreiosSettings, env: Collaborators)
    requires settings.addDaysForDelivery == 2 && settings.percentageShippingFee == 1.1
    requires env.currencyFound
    ensures var servico := Servico(4510, "0", "", 5, 20.0);
            var r := ComposeOption(servico, settings, env);
            && r.Success?
            && r.value.rate == 22.0
            && r.value.name == GetServiceName(env.catalog, "4510") + " - 7 dia(s)"
  {
    FormatExample();
    var servico := Servico(4510, "0", "", 5, 20.0);
    assert ValidateWSResult(servico) == Success("");
    var r := ComposeOption(servico, settings, env);
    assert r.Success?;
    assert r.value.rate == 22.0 by {
      assert ApplyAdditionalFee(20.0, settings) == 22.0;
    }
    var serviceName := GetServiceName(env.catalog, "4510");
    assert r.value.name == NameHead(serviceName, CalcPrazoEntrega(5, settings)) + "";
    assert CalcPrazoEntrega(5, settings) == 7;
    assert NameHead(serviceName, 7) == serviceName + " - 7 dia(s)";
  }

  /** No usable result, default rate 15.00 and default time 10 days: exactly one option,
      with the default values as configured. */
  lemma FallbackExample(settings: CorreiosSettings, env: Collaborators)
    requires settings.shippingRateDefault == 15.0 && settings.qtdDaysForDeliveryDefault == 10
    requires env.currencyFound
    ensures WithFallback([], settings, env) ==
              Success([ShippingOption(settings.serviceNameDefault + " - 10 dia(s)", 15.0)])
  {
    assert NatToString(10) == NatToString(1) + [DigitChar(0)] == "10";
    assert NameHead(settings.serviceNameDefault, 10) == settings.serviceNameDefault + " - 10 dia(s)";
  }

  /** The message of `NotImplementedException`. */
  const NotImplemented := "The method or operation is not implemented."

  /** `GetShippingOptionsAsync` as declared. `_correiosService` has the interface's type, so
      the synchronous `RequestCorreios` and `GetConvertedRateToPrimaryCurrency` it calls are
      the explicit interface members, which throw: the service call's exception is caught
      and logged, so no carrier option is added, and building the default option throws
      out of the method. */
  function ShippingOptionsAsWritten(request: Option<ShippingRequest>, settings: CorreiosSettings)
    : (r: Result<ShippingResponse>)
    ensures r.Success? ==> r.value.options == []
    ensures request.Some? && RequestErrors(request.value) == Success([])
            && settings.shippingRateDefault > 0.0 && settings.qtdDaysForDeliveryDefault > 0 ==>
              r == Failure(NotImplemented)
  {
    if request.None? then Failure(ArgumentNull)
    else
      var errors :- RequestErrors(request.value);
      if errors != [] then Success(ShippingResponse(errors, []))
      else if settings.shippingRateDefault > 0.0 && settings.qtdDaysForDeliveryDefault > 0 then
        Failure(NotImplemented)
      else Success(ShippingResponse([], []))
  }

  /** A valid request the carrier answers with a usable result: the model of the evident
      intent quotes it, the code as declared never returns an option. */
  lemma StubbedServiceLosesQuotes(request: ShippingRequest, settings: CorreiosSettings, env: Collaborators,
                                  servicos: seq<Servico>)
    requires RequestErrors(request) == Success([])
    ensures && RequestCorreiosSpec(request, settings, env) == Success(servicos)
            && (exists k :: 0 <= k < |servicos| && ComposeOption(servicos[k], settings, env).Success?)
            ==> && ShippingOptionsSpec(Some(request), settings, env).Success?
                && ShippingOptionsSpec(Some(request), settings, env).value.options != []
    ensures ShippingOptionsAsWritten(Some(request), settings).Success? ==>
              ShippingOptionsAsWritten(Some(request), settings).value.options == []
  {
    CarrierOptionsInOrder(request, settings, env, servicos);
    QuoteAllEmptyIff(servicos, settings, env);
  }
}
