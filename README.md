# Correios shipping-rate engine, modelled in Dafny

This project models the rate engine of the NopBrasil Correios shipping plugin for
nopCommerce. The engine does the following:

- checks that a shipment request is complete;
- resolves the origin postal code;
- converts the weight and dimensions into the carrier's units (kilograms and centimetres) and clamps them into the configured bounds;
- computes the declared value;
- decodes the enabled service ids from their stored form (`[04510]:[04014]`);
- calls the Correios CalcPrecoPrazo service once per enabled service;
- validates each per-service result (error codes, delivery time, price) and turns it into a named, fee-adjusted shipping option;
- falls back to a configured default option when no option survives.

It also models the two configuration-page operations that write and read the stored service list. `GetSelectedServices` encodes the checked services. `LoadSavedServices` marks the saved services again.

Modules:

- `Wrappers`: `Option` and `Result`. A C# exception is a `Failure` carrying its message, and null is `None`.
- `Text`: the .NET string operations used: `Split`, `Replace(c, "")`, `Contains`, `RemoveLastIfEndsWith` and integer formatting.
- `Domain`: settings, request, carrier result, shipping option, and the collaborators.
- `ServiceTypes`: the carrier's service table, with lookups by name and by id.
- `CorreiosService`: normalisation, the carrier fan-out, and the product-shipping denial.
- `ShippingCorreiosController`: encoding and reloading of the saved service list.
- `CorreiosComputationMethod`: validation, quoting, fallback and the top-level operation.

The plugin's collaborators are values of the `Collaborators` datatype. These are:

- the measure, shipping, address and currency services;
- the SOAP client.

Whether the units "kg" and "centimeter" and the currency "BRL" resolve is a boolean field. The conversions and aggregations are function fields. The addresses are a map. The carrier call is a function that returns the quoted services or fails.

Objects that the source updates in place are classes: the option response and the configuration model. The loops are methods proved against specification functions.

Three behaviours of the code are easy to miss:

- A failing carrier call for one service does not leave the other services' quotes in place. Its exception leaves the whole per-service loop of `RequestCorreios`, so every quote is lost and only the fallback can be offered (`GatewayFailureLeavesFallback`).
- A request without a shipping address does not yield one error per missing field. `ValidateRequest` records "Shipping address is not set" and then dereferences the null address, so the call throws (`ValidateRequest`, `RequestErrors`).
- A missing "kg" or "centimeter" unit, or a missing "BRL" currency, while the carrier request is being built, does not abort the whole call. The exception is caught around the service call, and the fallback is still tried. A missing "BRL" while the fallback option is built does escape the call.

The carrier's reply gives each service code as a number, and the display name is looked up by that number's decimal text. The decimal text of a number never has a leading zero unless it is "0" itself. So, assuming that the generated proxy types `Codigo` as an `int` and that `CorreiosServiceType.GetServiceName` compares ids exactly (neither is part of this model), a table id written with a leading zero, such as "04510", is never matched by a reply, and that option's name starts with whatever the table gives for an unknown id (`LeadingZeroIdsNeverNamed`). The delivery time is a 32-bit `int`: adding the configured extra days wraps around on overflow (`PrazoWrapsAround`).

## Model

| member | source | states |
|---|---|---|
| Text.Split | src/Plugins/NopBrasil.Plugin.Shipping.Correios/Service/CorreiosService.cs:154 | `Split(':')` returns at least one piece, and no piece contains the separator |
| Text.SplitPrefix | src/Plugins/NopBrasil.Plugin.Shipping.Correios/Service/CorreiosService.cs:154 | a leading separator-free piece followed by the separator splits off as the first piece |
| Text.SplitNoSeparator | src/Plugins/NopBrasil.Plugin.Shipping.Correios/Service/CorreiosService.cs:154 | a string without the separator splits into itself |
| Text.RemoveLastIfEndsWith | src/Plugins/NopBrasil.Plugin.Shipping.Correios/Controllers/ShippingCorreiosController.cs:135 | exactly one trailing `:` is removed when present, and the string is unchanged otherwise |
| Text.RemoveAll | src/Plugins/NopBrasil.Plugin.Shipping.Correios/Service/CorreiosService.cs:154 | `Replace("]", "")` leaves no `]`, keeps a one-character string other than `]` and drops a lone `]`, and changes nothing when there is no `]`; with `RemoveAllAppend` this fixes it on every string: each `]` dropped, every other character kept, in order |
| Text.RemoveAllAppend | src/Plugins/NopBrasil.Plugin.Shipping.Correios/Service/CorreiosService.cs:154 | removing `]` from a concatenation removes it from each part and concatenates the results |
| Text.RemoveAllTrailing | src/Plugins/NopBrasil.Plugin.Shipping.Correios/Service/CorreiosService.cs:154 | removing `]` from `id]` gives back `id` when the id holds no `]` |
| Text.ContainsAfterHead | src/Plugins/NopBrasil.Plugin.Shipping.Correios/Controllers/ShippingCorreiosController.cs:85 | an occurrence of a pattern in `w + rest` starts at 0 or lies inside `rest`, when no later character of `w` can start the pattern |
| Text.Contains | src/Plugins/NopBrasil.Plugin.Shipping.Correios/Controllers/ShippingCorreiosController.cs:85 | ordinal `Contains`: a found text is no longer than the searched one, and a prefix is always found |
| Text.IntToString | src/Plugins/NopBrasil.Plugin.Shipping.Correios/CorreiosComputationMethod.cs:60 | `{prazo}` formats as decimal digits, led by `-` exactly when negative, and the digits read back as the number's absolute value |
| Text.NatToString | src/Plugins/NopBrasil.Plugin.Shipping.Correios/CorreiosComputationMethod.cs:60 | the digits of a natural number read back as that number, and only zero starts with '0' |
| Text.IntToStringInjective | src/Plugins/NopBrasil.Plugin.Shipping.Correios/CorreiosComputationMethod.cs:60 | different numbers format differently |
| Text.NoLeadingZero | src/Plugins/NopBrasil.Plugin.Shipping.Correios/CorreiosComputationMethod.cs:259 | no number formats as a text of two or more characters that starts with '0' |
| ServiceTypes.Services | src/Plugins/NopBrasil.Plugin.Shipping.Correios/Controllers/ShippingCorreiosController.cs:81 | the service names are those of the table, in table order |
| ServiceTypes.GetServiceId | src/Plugins/NopBrasil.Plugin.Shipping.Correios/Controllers/ShippingCorreiosController.cs:83 | the id of a listed name comes from a table entry with that name, and an unknown name gives "" |
| ServiceTypes.GetServiceName | src/Plugins/NopBrasil.Plugin.Shipping.Correios/CorreiosComputationMethod.cs:259 | the name of a listed id comes from a table entry with that id, and an unknown id gives "" |
| ServiceTypes.IndexOfName | src/Plugins/NopBrasil.Plugin.Shipping.Correios/Controllers/ShippingCorreiosController.cs:83 | the lookup by name finds the first entry with that name |
| ServiceTypes.IndexOfId | src/Plugins/NopBrasil.Plugin.Shipping.Correios/CorreiosComputationMethod.cs:259 | the lookup by id finds the first entry with that id |
| ServiceTypes.NameIdRoundTrip | src/Plugins/NopBrasil.Plugin.Shipping.Correios/CorreiosComputationMethod.cs:259 | with distinct ids, name to id to name is the identity on listed names |
| ServiceTypes.IdNameRoundTrip | src/Plugins/NopBrasil.Plugin.Shipping.Correios/Controllers/ShippingCorreiosController.cs:131 | with distinct names, id to name to id is the identity on listed ids |
| CorreiosService.AcceptedDimensions | src/Plugins/NopBrasil.Plugin.Shipping.Correios/Service/CorreiosService.cs:158 | `Min(Max(v, min), max)` never exceeds the maximum, and is at least the minimum when the bounds are ordered; in-range values pass unchanged; values past a bound give that bound; with inverted bounds (minimum above maximum) the result is the maximum |
| CorreiosService.AcceptedDimensionsInt | src/Plugins/NopBrasil.Plugin.Shipping.Correios/Service/CorreiosService.cs:160 | the same clamp on integers, including the maximum for inverted bounds |
| CorreiosService.AcceptedDimensionsIdempotent | src/Plugins/NopBrasil.Plugin.Shipping.Correios/Service/CorreiosService.cs:158 | clamping twice equals clamping once |
| CorreiosService.AcceptedDimensionsIntIdempotent | src/Plugins/NopBrasil.Plugin.Shipping.Correios/Service/CorreiosService.cs:160 | clamping twice equals clamping once, on integers |
| CorreiosService.Ceiling | src/Plugins/NopBrasil.Plugin.Shipping.Correios/Service/CorreiosService.cs:98 | `Math.Ceiling` gives the least integer at or above its argument |
| CorreiosService.GetWeight | src/Plugins/NopBrasil.Plugin.Shipping.Correios/Service/CorreiosService.cs:92-100 | fails with the "kg" message exactly when the unit is missing; otherwise the weight is exactly the kilogram total rounded up and clamped into the weight bounds, so it lies within ordered bounds, rounds up an in-range weight and gives the maximum for a heavier one |
| CorreiosService.GetDimensions | src/Plugins/NopBrasil.Plugin.Shipping.Correios/Service/CorreiosService.cs:102-123 | fails with the "centimeter" message exactly when the unit is missing; otherwise each dimension is converted to centimetres and clamped into its own bounds |
| CorreiosService.GetConvertedRate | src/Plugins/NopBrasil.Plugin.Shipping.Correios/Service/CorreiosService.cs:135-141 | the conversion returns the amount unchanged |
| CorreiosService.ConvertRate | src/Plugins/NopBrasil.Plugin.Shipping.Correios/Service/CorreiosService.cs:125-149 | converting to or from the primary currency fails with the "BRL" message exactly when that currency is missing, and otherwise keeps the amount |
| CorreiosService.Products | src/Plugins/NopBrasil.Plugin.Shipping.Correios/Service/CorreiosService.cs:88 | the products of the items, one per item, in order |
| CorreiosService.SumPrices | src/Plugins/NopBrasil.Plugin.Shipping.Correios/Service/CorreiosService.cs:88 | the summed unit prices: a single product gives its price, non-negative prices give a non-negative sum |
| CorreiosService.SumPricesAppend | src/Plugins/NopBrasil.Plugin.Shipping.Correios/Service/CorreiosService.cs:182 | the sum over two batches of products is the sum of the two sums |
| CorreiosService.DeclaredValueIgnoresQuantities | src/Plugins/NopBrasil.Plugin.Shipping.Correios/Service/CorreiosService.cs:86-90 | two shipments with the same products in the same order declare the same value, whatever their quantities |
| CorreiosService.GetDeclaredValue | src/Plugins/NopBrasil.Plugin.Shipping.Correios/Service/CorreiosService.cs:86-90 | the sum of the item prices, not weighted by quantity, raised to the declared-value floor; fails exactly when "BRL" is missing |
| CorreiosService.WarehouseZip | src/Plugins/NopBrasil.Plugin.Shipping.Correios/Service/CorreiosService.cs:79-80 | the warehouse's postal code is taken exactly when a warehouse is given, its address exists and that address has a non-empty code |
| CorreiosService.GetZipPostalCodeFrom | src/Plugins/NopBrasil.Plugin.Shipping.Correios/Service/CorreiosService.cs:77-84 | the origin is the warehouse's code, else the request's own code, else the configured code, with the first that applies winning |
| CorreiosService.TokenCode | src/Plugins/NopBrasil.Plugin.Shipping.Correios/Service/CorreiosService.cs:154 | `Remove(0, 1).Replace("]", "")` is the token without its first character and with every `]` removed; it is shorter than the token, holds no `]`, and is the token's tail when that holds no `]` |
| CorreiosService.TokenCodes | src/Plugins/NopBrasil.Plugin.Shipping.Correios/Service/CorreiosService.cs:154 | one code per token, in order |
| CorreiosService.ServiceTokens | src/Plugins/NopBrasil.Plugin.Shipping.Correios/Service/CorreiosService.cs:154 | the stored list without its trailing `:`, split on `:`, gives at least one token, none holding `:` |
| CorreiosService.DecodeServices | src/Plugins/NopBrasil.Plugin.Shipping.Correios/Service/CorreiosService.cs:151-156 | decoding fails with the out-of-range `Remove` message exactly when some token is empty; otherwise it is exactly the token codes of the stored list's tokens, one per token, in order, free of `]` and `:` |
| CorreiosService.DecodeEmptyFails | src/Plugins/NopBrasil.Plugin.Shipping.Correios/Service/CorreiosService.cs:154 | an empty stored list makes decoding throw |
| CorreiosService.GetSelectecServices | src/Plugins/NopBrasil.Plugin.Shipping.Correios/Service/CorreiosService.cs:151-156 | the decoding loop computes `DecodeServices` of the stored list |
| CorreiosService.Calls | src/Plugins/NopBrasil.Plugin.Shipping.Correios/Service/CorreiosService.cs:61-71 | one call per service id, in order, each with the same shipment data |
| CorreiosService.Gather | src/Plugins/NopBrasil.Plugin.Shipping.Correios/Service/CorreiosService.cs:61-73 | no call gives no service; a failing first call fails with its error; any failure is the error of a call all of whose predecessors succeeded |
| CorreiosService.BaseCall | src/Plugins/NopBrasil.Plugin.Shipping.Correios/Service/CorreiosService.cs:63-71 | every call carries the configured company code and password, an empty service code, the resolved origin, the destination, the weight as decimal text, the clamped dimensions and the declared value |
| CorreiosService.GatherAllOrNothing | src/Plugins/NopBrasil.Plugin.Shipping.Correios/Service/CorreiosService.cs:61-74 | the fan-out succeeds exactly when every carrier call succeeds |
| CorreiosService.GatherConcatenates | src/Plugins/NopBrasil.Plugin.Shipping.Correios/Service/CorreiosService.cs:72-74 | when every call succeeds, the result is the calls' services concatenated in call order |
| CorreiosService.RequestCorreiosFansOut | src/Plugins/NopBrasil.Plugin.Shipping.Correios/Service/CorreiosService.cs:45-75 | once the unit and currency lookups resolve and the services decode, the result is the carrier fan-out over one call per service, and it succeeds exactly when every call does |
| CorreiosService.RequestCorreiosSpec | src/Plugins/NopBrasil.Plugin.Shipping.Correios/Service/CorreiosService.cs:45-75 | fails with the "centimeter" message first, then the "kg" message, then the "BRL" message, then the out-of-range decoding error; a success means every lookup resolved and the stored list decoded |
| CorreiosService.RequestCorreios | src/Plugins/NopBrasil.Plugin.Shipping.Correios/Service/CorreiosService.cs:45-75 | resolves the origin, then the dimensions, weight, declared value and services, each failing in that order, then calls the carrier per service and concatenates the results, where any failure aborts everything |
| CorreiosService.WeightArgumentAsWritten | src/Plugins/NopBrasil.Plugin.Shipping.Correios/Service/CorreiosService.cs:54-66 | the unawaited weight is sent as the text of a task object, which starts with "System." |
| CorreiosService.WeightArgumentNeverNumeric | src/Plugins/NopBrasil.Plugin.Shipping.Correios/Service/CorreiosService.cs:54-66 | that text is never the decimal form of any weight |
| CorreiosService.RequestCorreiosAsWritten | src/Plugins/NopBrasil.Plugin.Shipping.Correios/Service/CorreiosService.cs:45-75 | with the weight task unawaited, a missing "centimeter" or "BRL" still fails the call, but no failure is the "kg" message unless the carrier itself returns it |
| CorreiosService.MissingKgIgnoredAsWritten | src/Plugins/NopBrasil.Plugin.Shipping.Correios/Service/CorreiosService.cs:54 | as written, the outcome is the same whether or not "kg" resolves, while the intended operation fails with the "kg" message |
| CorreiosService.DenyProductShipping | src/Plugins/NopBrasil.Plugin.Shipping.Correios/Service/CorreiosService.cs:162-187 | fails when "centimeter" is missing; true when some product exceeds a maximum dimension in centimetres; otherwise whether the summed prices exceed 3000, failing when "BRL" is missing |
| CorreiosService.Oversized | src/Plugins/NopBrasil.Plugin.Shipping.Correios/Service/CorreiosService.cs:174-176 | a product is refused exactly when clamping one of its dimensions in centimetres would shrink it, that is, when it exceeds that maximum |
| ShippingCorreiosController.Bracket | src/Plugins/NopBrasil.Plugin.Shipping.Correios/Controllers/ShippingCorreiosController.cs:133 | `[id]` starts with `[`, ends with `]`, and holds the id in between |
| ShippingCorreiosController.CatalogIds | src/Plugins/NopBrasil.Plugin.Shipping.Correios/Controllers/ShippingCorreiosController.cs:131 | the ids of the service table, in order |
| ShippingCorreiosController.SelectedIds | src/Plugins/NopBrasil.Plugin.Shipping.Correios/Controllers/ShippingCorreiosController.cs:128-134 | the ids kept are non-empty table ids, at most one per checked service |
| ShippingCorreiosController.SelectedIdsMember | src/Plugins/NopBrasil.Plugin.Shipping.Correios/Controllers/ShippingCorreiosController.cs:128-134 | an id is kept exactly when it is non-empty and some checked service has it |
| ShippingCorreiosController.Bracketed | src/Plugins/NopBrasil.Plugin.Shipping.Correios/Controllers/ShippingCorreiosController.cs:133 | the builder holds `[id]:` per id; it is empty exactly when there is no id, and otherwise ends in `]:` |
| ShippingCorreiosController.BracketedAppend | src/Plugins/NopBrasil.Plugin.Shipping.Correios/Controllers/ShippingCorreiosController.cs:133 | each `Append` adds `[id]:` at the end |
| ShippingCorreiosController.EncodeServices | src/Plugins/NopBrasil.Plugin.Shipping.Correios/Controllers/ShippingCorreiosController.cs:135 | no id encodes as ""; otherwise the text starts with `[` and ends with `]` |
| ShippingCorreiosController.EncodeCons | src/Plugins/NopBrasil.Plugin.Shipping.Correios/Controllers/ShippingCorreiosController.cs:133-135 | the encoding is the first `[id]`, then `:` and the encoding of the rest |
| ShippingCorreiosController.BracketedStep | src/Plugins/NopBrasil.Plugin.Shipping.Correios/Controllers/ShippingCorreiosController.cs:129-134 | one loop step appends `[id]:` exactly when the checked service has a non-empty id |
| ShippingCorreiosController.GetSelectedServices | src/Plugins/NopBrasil.Plugin.Shipping.Correios/Controllers/ShippingCorreiosController.cs:125-136 | no checked list gives ""; otherwise the result is the encoding of the checked services' non-empty ids, in order |
| ShippingCorreiosController.Brackets | src/Plugins/NopBrasil.Plugin.Shipping.Correios/Controllers/ShippingCorreiosController.cs:133 | one `[id]` token per id, in order |
| ShippingCorreiosController.SplitEncoded | src/Plugins/NopBrasil.Plugin.Shipping.Correios/Service/CorreiosService.cs:154 | splitting an encoding on `:` gives back the `[id]` tokens |
| ShippingCorreiosController.EncodeDecodeRoundTrip | src/Plugins/NopBrasil.Plugin.Shipping.Correios/Service/CorreiosService.cs:151-156 | for a non-empty list of ids free of `]` and `:`, decoding the saved encoding gives back exactly the ids |
| ShippingCorreiosController.HeadMatch | src/Plugins/NopBrasil.Plugin.Shipping.Correios/Controllers/ShippingCorreiosController.cs:85 | `[x]` occurs at the head of `[a]...` exactly when `x == a` |
| ShippingCorreiosController.ContainsSingle | src/Plugins/NopBrasil.Plugin.Shipping.Correios/Controllers/ShippingCorreiosController.cs:85 | `[a]` contains `[x]` exactly when `x == a` |
| ShippingCorreiosController.ContainsCons | src/Plugins/NopBrasil.Plugin.Shipping.Correios/Controllers/ShippingCorreiosController.cs:85 | `[a]:rest` contains `[x]` exactly when `x == a` or `rest` contains it |
| ShippingCorreiosController.ContainsStep | src/Plugins/NopBrasil.Plugin.Shipping.Correios/Controllers/ShippingCorreiosController.cs:85 | membership carries from the tail of the list to the whole |
| ShippingCorreiosController.ContainsIffMember | src/Plugins/NopBrasil.Plugin.Shipping.Correios/Controllers/ShippingCorreiosController.cs:85 | for plain ids, the stored text contains `[x]` exactly when x is a stored id: the brackets prevent a short id from matching inside a longer one |
| ShippingCorreiosController.LongerIdDoesNotMatch | src/Plugins/NopBrasil.Plugin.Shipping.Correios/Controllers/ShippingCorreiosController.cs:85 | "04510" occurs in "045101", but `[04510]` does not occur in `[045101]` |
| ShippingCorreiosController.LoadSavedServices | src/Plugins/NopBrasil.Plugin.Shipping.Correios/Controllers/ShippingCorreiosController.cs:78-88 | appends, in table order, every service whose non-empty id occurs in brackets in a non-empty stored list |
| ShippingCorreiosController.CorreiosShippingModel.AddServiceOffered | src/Plugins/NopBrasil.Plugin.Shipping.Correios/Controllers/ShippingCorreiosController.cs:86 | adds one service at the end of the offered list |
| ShippingCorreiosController.IsSaved | src/Plugins/NopBrasil.Plugin.Shipping.Correios/Controllers/ShippingCorreiosController.cs:84-85 | a service passes the test only when it is in the table and the stored list is non-empty |
| ShippingCorreiosController.SavedServices | src/Plugins/NopBrasil.Plugin.Shipping.Correios/Controllers/ShippingCorreiosController.cs:81-86 | at most one service per listed name, each listed and passing the test |
| ShippingCorreiosController.SavedNone | src/Plugins/NopBrasil.Plugin.Shipping.Correios/Controllers/ShippingCorreiosController.cs:80 | an empty stored list loads nothing |
| ShippingCorreiosController.SavedMember | src/Plugins/NopBrasil.Plugin.Shipping.Correios/Controllers/ShippingCorreiosController.cs:81-86 | a service is loaded exactly when it is listed and passes the bracketed-id test |
| ShippingCorreiosController.SavedDistinct | src/Plugins/NopBrasil.Plugin.Shipping.Correios/Controllers/ShippingCorreiosController.cs:81-86 | with distinct names, no service is loaded twice |
| ShippingCorreiosController.ReloadSelectsChecked | src/Plugins/NopBrasil.Plugin.Shipping.Correios/Controllers/ShippingCorreiosController.cs:78-136 | saving then loading marks exactly the table services whose id was checked, when the ids are plain |
| CorreiosComputationMethod.ShippingOptionResponse.AddError | src/Plugins/NopBrasil.Plugin.Shipping.Correios/CorreiosComputationMethod.cs:44 | adds one error at the end and leaves the options alone |
| CorreiosComputationMethod.ShippingOptionResponse.AddOption | src/Plugins/NopBrasil.Plugin.Shipping.Correios/CorreiosComputationMethod.cs:259 | adds one option at the end and leaves the errors alone |
| CorreiosComputationMethod.MissingFields | src/Plugins/NopBrasil.Plugin.Shipping.Correios/CorreiosComputationMethod.cs:43-52 | no error exactly when the items and every address field are present; a missing item list gives the first error and a missing postal code the last |
| CorreiosComputationMethod.RequestErrors | src/Plugins/NopBrasil.Plugin.Shipping.Correios/CorreiosComputationMethod.cs:41-54 | throws exactly when the address is null; otherwise holds one distinct error for each missing field (items, country, state, postal code) and is empty exactly when none is missing |
| CorreiosComputationMethod.ValidateRequest | src/Plugins/NopBrasil.Plugin.Shipping.Correios/CorreiosComputationMethod.cs:41-54 | appends those errors and reports whether the response holds none; with no address it appends the items and address errors and then throws |
| CorreiosComputationMethod.ApplyAdditionalFee | src/Plugins/NopBrasil.Plugin.Shipping.Correios/CorreiosComputationMethod.cs:56 | multiplies by the fee only when it is positive, and a positive rate stays positive |
| CorreiosComputationMethod.CalcPrazoEntrega | src/Plugins/NopBrasil.Plugin.Shipping.Correios/CorreiosComputationMethod.cs:66-72 | adds the extra days only when they are positive, in 32-bit `int` arithmetic: the result stays in the `int` range, exceeds the carrier's days when the sum fits, and is the sum less 2^32 when it overflows |
| Domain.WrapInt32 | src/Plugins/NopBrasil.Plugin.Shipping.Correios/CorreiosComputationMethod.cs:70 | C# unchecked `int` addition: the result lies in the 32-bit range, differs from the exact sum by a multiple of 2^32, and equals it when it fits |
| CorreiosComputationMethod.PrazoWrapsAround | src/Plugins/NopBrasil.Plugin.Shipping.Correios/CorreiosComputationMethod.cs:66-72 | 5 carrier days plus 2147483647 extra days give -2147483644 |
| CorreiosComputationMethod.NameHeadDistinguishesDays | src/Plugins/NopBrasil.Plugin.Shipping.Correios/CorreiosComputationMethod.cs:60 | two names "{service} - {days} dia(s)" for the same service agree exactly when the days agree |
| CorreiosComputationMethod.GetShippingOption | src/Plugins/NopBrasil.Plugin.Shipping.Correios/CorreiosComputationMethod.cs:58-64 | the name is "{service} - {days} dia(s)", with " - {obs}" only for a non-empty observation; the rate is kept; fails exactly when "BRL" is missing |
| CorreiosComputationMethod.IsSuccessCode | src/Plugins/NopBrasil.Plugin.Shipping.Correios/CorreiosComputationMethod.cs:77 | the success sentinel is an empty or one-character code |
| CorreiosComputationMethod.IsAdvisoryCode | src/Plugins/NopBrasil.Plugin.Shipping.Correios/CorreiosComputationMethod.cs:79 | an advisory code is a three-character code starting with '0', and never the success sentinel |
| CorreiosComputationMethod.ValidateWSResult | src/Plugins/NopBrasil.Plugin.Shipping.Correios/CorreiosComputationMethod.cs:74-92 | a code other than "", "0", "009", "010" or "011" throws "{code} - {message}"; then days <= 0 and then price <= 0 throw their messages; the observation is the message for the advisory codes and "" for success |
| CorreiosComputationMethod.ComposeOption | src/Plugins/NopBrasil.Plugin.Shipping.Correios/CorreiosComputationMethod.cs:256-260 | a result yields an option exactly when it validates and "BRL" resolves; the option's rate is the fee-adjusted price and is positive; its name is "{table name of the code's decimal text} - {offset days} dia(s)", followed by " - {observation}" when the observation is non-empty |
| CorreiosComputationMethod.LeadingZeroIdsNeverNamed | src/Plugins/NopBrasil.Plugin.Shipping.Correios/CorreiosComputationMethod.cs:259 | when every table id is written with a leading zero, no carrier code finds a table entry, so the name lookup gives "" |
| CorreiosComputationMethod.QuoteEach | src/Plugins/NopBrasil.Plugin.Shipping.Correios/CorreiosComputationMethod.cs:254-265 | the per-service loop gives at most one option per result, and every rate is positive when every composed option's is |
| CorreiosComputationMethod.QuoteEachAppend | src/Plugins/NopBrasil.Plugin.Shipping.Correios/CorreiosComputationMethod.cs:254-265 | looping over a concatenation gives the options of each part, in order |
| CorreiosComputationMethod.QuoteEachEmptyIff | src/Plugins/NopBrasil.Plugin.Shipping.Correios/CorreiosComputationMethod.cs:254-265 | the loop gives no option exactly when no result composes |
| CorreiosComputationMethod.QuoteAll | src/Plugins/NopBrasil.Plugin.Shipping.Correios/CorreiosComputationMethod.cs:254-265 | the loop with `ComposeOption`: at most one option per result, every rate positive |
| CorreiosComputationMethod.QuoteAllAppend | src/Plugins/NopBrasil.Plugin.Shipping.Correios/CorreiosComputationMethod.cs:254-265 | quoting a concatenation quotes each part, in order |
| CorreiosComputationMethod.QuoteAllSkipsFailure | src/Plugins/NopBrasil.Plugin.Shipping.Correios/CorreiosComputationMethod.cs:256-264 | a failing result is skipped and the options around it are kept |
| CorreiosComputationMethod.QuoteAllEmptyIff | src/Plugins/NopBrasil.Plugin.Shipping.Correios/CorreiosComputationMethod.cs:254-265 | no option comes out exactly when no result composes |
| CorreiosComputationMethod.WithFallback | src/Plugins/NopBrasil.Plugin.Shipping.Correios/CorreiosComputationMethod.cs:272-277 | existing options are kept; with none, exactly one option carries the default name, days and rate (no fee, no observation) when the default rate and days are positive, and otherwise there is none |
| CorreiosComputationMethod.QuotedOptions | src/Plugins/NopBrasil.Plugin.Shipping.Correios/CorreiosComputationMethod.cs:251-270 | the carrier's options have positive rates, at most one per result; a failing service call leaves none |
| CorreiosComputationMethod.ShippingOptionsSpec | src/Plugins/NopBrasil.Plugin.Shipping.Correios/CorreiosComputationMethod.cs:241-280 | a null request throws the argument-null error and a null address the null-reference error; a response never holds both errors and options; every option's rate is positive |
| CorreiosComputationMethod.FallbackExample | src/Plugins/NopBrasil.Plugin.Shipping.Correios/CorreiosComputationMethod.cs:272-277 | default rate 15.00 and 10 days give the single option "{name} - 10 dia(s)" at 15.00 |
| CorreiosComputationMethod.AddComposed | src/Plugins/NopBrasil.Plugin.Shipping.Correios/CorreiosComputationMethod.cs:256-264 | one loop turn adds the result's option when it composes and nothing otherwise, and adds no error |
| CorreiosComputationMethod.AddCarrierOptions | src/Plugins/NopBrasil.Plugin.Shipping.Correios/CorreiosComputationMethod.cs:254-265 | the per-service loop appends exactly `QuoteAll` of the carrier's results, and adds no error |
| CorreiosComputationMethod.GetShippingOptions | src/Plugins/NopBrasil.Plugin.Shipping.Correios/CorreiosComputationMethod.cs:241-280 | the operation computes `ShippingOptionsSpec`: a null request throws; validation errors return with no option; otherwise the carrier's usable options, in order, then the fallback |
| CorreiosComputationMethod.IncompleteRequestHasNoOptions | src/Plugins/NopBrasil.Plugin.Shipping.Correios/CorreiosComputationMethod.cs:246-249 | an incomplete request with an address returns one error per missing field and no option |
| CorreiosComputationMethod.GatewayFailureLeavesFallback | src/Plugins/NopBrasil.Plugin.Shipping.Correios/CorreiosComputationMethod.cs:251-277 | when the service call fails, the response holds only what the fallback gives |
| CorreiosComputationMethod.NothingComposesLeavesFallback | src/Plugins/NopBrasil.Plugin.Shipping.Correios/CorreiosComputationMethod.cs:253-277 | when the carrier answers but no result is usable, the response is what the default option alone gives |
| CorreiosComputationMethod.DefaultGuaranteesAnOption | src/Plugins/NopBrasil.Plugin.Shipping.Correios/CorreiosComputationMethod.cs:272-277 | a valid request with positive defaults and "BRL" always gets at least one option |
| CorreiosComputationMethod.CarrierOptionsInOrder | src/Plugins/NopBrasil.Plugin.Shipping.Correios/CorreiosComputationMethod.cs:253-265 | when some carrier result is usable, the options are exactly the usable ones, in result order |
| CorreiosComputationMethod.QuoteExample | src/Plugins/NopBrasil.Plugin.Shipping.Correios/CorreiosComputationMethod.cs:56-72 | service code 4510 with 5 carrier days plus 2 extra days, at 20.00 with fee 1.1, gives "{name} - 7 dia(s)" at 22.00, where the name is the table's name for the text "4510" |
| CorreiosComputationMethod.ShippingOptionsAsWritten | src/Plugins/NopBrasil.Plugin.Shipping.Correios/CorreiosComputationMethod.cs:253 | as the calls dispatch, no option is ever returned, and a valid request with positive defaults throws |
| CorreiosComputationMethod.StubbedServiceLosesQuotes | src/Plugins/NopBrasil.Plugin.Shipping.Correios/CorreiosComputationMethod.cs:253-276 | a request the carrier can quote gets options in the intended model and none as the code dispatches |

## Left out

- Parsing the carrier's `PrazoEntrega` and `Valor` strings (`Convert.ToInt32`, `Convert.ToDecimal` with the pt-BR culture) is left out. The carrier result carries them already parsed, so a parse failure is not modelled.
- `decimal` precision and rounding are left out: amounts are exact reals. `Convert.ToInt32` overflow on a huge weight is not modelled either.
- ApplyAdditionalFee: `decimal` overflow of the price times the fee, which throws and skips that service, is not modelled, because amounts are unbounded reals.
- SumPrices: `decimal` overflow of the summed prices, which throws, is not modelled, for the same reason.
- Logging, `async`/`await` scheduling, the SOAP binding and endpoint, and the Url setting are left out. The carrier call is a function field of the collaborators.
- Writing the resolved origin back into the caller's request (`ZipPostalCodeFrom`) is left out. The model only uses the resolved value.
- A null `ServicesOffered` and a null or empty observation are both the empty string. Every reader of these treats the two alike, except decoding, where `null.RemoveLastIfEndsWith` would throw a null-reference error where the empty string throws an out-of-range error. Both are failures.
- The item-level null checks of `Split` results (`service?.Remove`) are left out, since `Split` never yields null.
- `RemoveLastIfEndsWith` is not part of the sources modelled. It is taken to strip one trailing occurrence of its suffix.
- The body of the service table `CorreiosServiceType` is not part of this model. It is a `ServiceCatalog` value, and the round-trip lemmas state the distinctness they rely on. The lookup by id is modelled as an exact comparison, and the reply's service code as an `int` because the generated proxy `WSCorreiosCalcPrecoPrazo` is not part of this model either; `LeadingZeroIdsNeverNamed` holds under these two assumptions.
- The explicit `ICorreiosService` members that throw `NotImplementedException` are not modelled as operations. Their effect on the top-level operation is the first finding below.
- The shipment tracker, dependency registration, plugin install/uninstall, permission checks, view rendering and settings persistence of the controller are left out: they are plumbing with no logic.
- The currency conversion itself is left out, because `GetConvertedRate` returns the amount unchanged; only the lookup of "BRL", which can throw, is kept.
- GetShippingOptions: the options are returned as a value snapshot of the response object, which is allocated inside the method. Later aliasing of that object by the caller is not modelled.

## Findings

| source | as written | input that shows it | evidently intended | confidence | as-written member | corrected member |
|---|---|---|---|---|---|---|
| src/Plugins/NopBrasil.Plugin.Shipping.Correios/CorreiosComputationMethod.cs:253 | `_correiosService` has the interface type `ICorreiosService` (line 27). The synchronous `RequestCorreios` and `GetConvertedRateToPrimaryCurrency` called at lines 253 and 63 are therefore the explicit interface members at `Service/CorreiosService.cs:189-197`, which throw `NotImplementedException` | any complete request with a carrier that would quote, e.g. one service "04510" answering code "0", 5 days, 20.00: no option is returned; with positive defaults the fallback throws instead | call the asynchronous implementations, so the carrier's usable quotes become options and the fallback is priced | high, not executed | CorreiosComputationMethod.ShippingOptionsAsWritten | CorreiosComputationMethod.GetShippingOptions |
| src/Plugins/NopBrasil.Plugin.Shipping.Correios/Service/CorreiosService.cs:54 | `GetWeight` is not awaited, so `weight.ToString()` at line 66 sends the text of a `Task<int>` (its type name). A missing "kg" unit no longer fails the request, because the exception stays inside the unobserved task | any shipment, e.g. 2.3 kg with bounds 1 to 30: the carrier receives a type name instead of "3", and without a "kg" unit the call goes on as if it had one | await `GetWeight` and send the clamped kilogram weight in decimal | high, not executed | CorreiosService.RequestCorreiosAsWritten | CorreiosService.RequestCorreios |
