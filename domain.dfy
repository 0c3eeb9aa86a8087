/** The values the rate engine reads and produces: the plugin settings, the shipment
    request, the carrier's per-service result, the shipping option, and the collaborators
    (measure, shipping, address and currency services, the carrier gateway) reduced to
    the values and functions the engine consults. Amounts are `real`: C# `decimal`
    arithmetic is exact for the sums, products and comparisons made here. */
module Domain {
  import opened Wrappers

  /** CorreiosSettings. `servicesOffered` is the bracket-encoded list of enabled service
      ids; the empty string stands for both null and empty, which every reader of it
      treats alike. The same holds for `companyCode` and `password`, which are sent with
      null replaced by "". */
  datatype CorreiosSettings = CorreiosSettings(
    postalCodeFrom: string,
    companyCode: string,
    password: string,
    addDaysForDelivery: int,
    percentageShippingFee: real,
    declaredMinimumValue: real,
    minimumWeight: int,
    maximumWeight: int,
    minimumLength: real,
    maximumLength: real,
    minimumHeight: real,
    maximumHeight: real,
    minimumWidth: real,
    maximumWidth: real,
    serviceNameDefault: string,
    shippingRateDefault: real,
    qtdDaysForDeliveryDefault: int,
    servicesOffered: string)

  /** The fields of a catalog Product the engine reads, in the store's primary units. */
  datatype Product = Product(price: real, length: real, height: real, width: real)

  datatype Item = Item(product: Product, quantity: nat)

  datatype Address = Address(
    countryId: Option<int>,
    stateProvinceId: Option<int>,
    zipPostalCode: Option<string>)

  datatype Warehouse = Warehouse(addressId: int)

  /** GetShippingOptionRequest; a null `Items` or `ShippingAddress` is `None`. */
  datatype ShippingRequest = ShippingRequest(
    items: Option<seq<Item>>,
    shippingAddress: Option<Address>,
    zipPostalCodeFrom: string,
    warehouseFrom: Option<Warehouse>)

  /** The request as the engine needs it after validation: items and a destination zip. */
  predicate Complete(request: ShippingRequest) {
    && request.items.Some?
    && request.shippingAddress.Some?
    && request.shippingAddress.value.zipPostalCode.Some?
  }

  /** cServico: one per-service carrier result, with `PrazoEntrega` and `Valor` already
      parsed; `Codigo` is numeric in the carrier's reply. */
  datatype Servico = Servico(
    codigo: int,
    erro: string,
    msgErro: string,
    prazoEntrega: int,
    valor: real)

  datatype ShippingOption = ShippingOption(name: string, rate: real)

  /** Dimensions in the order the shipping service returns them. */
  datatype Dimensions = Dimensions(width: real, length: real, height: real)

  /** The arguments of one CalcPrecoPrazo call that vary; the constants (package format 1,
      diameter 0, "N" for own hand and for receipt notice) are left implicit. The
      weight travels as text. */
  datatype GatewayCall = GatewayCall(
    companyCode: string,
    password: string,
    serviceCode: string,
    zipFrom: string,
    zipTo: string,
    weight: string,
    length: real,
    height: real,
    width: real,
    declaredValue: real)

  datatype ServiceEntry = ServiceEntry(name: string, id: string)

  /** The static table of carrier services: display name and service id. */
  datatype ServiceCatalog = ServiceCatalog(entries: seq<ServiceEntry>)

  /** Everything the engine asks other services for.
      - `weightUnitFound`, `dimensionUnitFound`, `currencyFound`: whether the measure
        keywords "kg" and "centimeter" and the currency code "BRL" resolve;
      - `totalWeight`, `dimensionsOf`: the shipping service's aggregation, in primary units;
      - `toKilograms`, `toCentimeters`: the measure service's conversions;
      - `addresses`: the address service, by id;
      - `gateway`: the carrier call, which returns the services it quoted or throws. */
  datatype Collaborators = Collaborators(
    weightUnitFound: bool,
    dimensionUnitFound: bool,
    currencyFound: bool,
    totalWeight: ShippingRequest -> real,
    dimensionsOf: seq<Item> -> Dimensions,
    toKilograms: real -> real,
    toCentimeters: real -> real,
    addresses: map<int, Address>,
    catalog: ServiceCatalog,
    gateway: GatewayCall -> Result<seq<Servico>>)

  /** C# `int` arithmetic: the mathematical result wrapped into [-2^31, 2^31). */
  function WrapInt32(x: int): (r: int)
    ensures -0x8000_0000 <= r < 0x8000_0000
    ensures (r - x) % 0x1_0000_0000 == 0
    ensures -0x8000_0000 <= x < 0x8000_0000 ==> r == x
  {
    (x + 0x8000_0000) % 0x1_0000_0000 - 0x8000_0000
  }

  // Messages of the exceptions and errors, as installed by the plugin's English resources.
  const NoShipmentItems := "No shipment items"
  const AddressNotSet := "Shipping address is not set"
  const CountryNotSet := "Shipping country is not set"
  const StateNotSet := "Shipping state is not set"
  const PostalCodeNotSet := "Shipping zip postal code is not set"
  const DeliveryUninformed := "Delivery uninformed"
  const InvalidValueDelivery := "Invalid value delivery"
  const NullReference := "Object reference not set to an instance of an object."
  const ArgumentNull := "Value cannot be null. (Parameter 'getShippingOptionRequest')"
  const ArgumentOutOfRange := "Index and count must refer to a location within the string. (Parameter 'count')"
  const WeightUnitMissing := "Correios shipping service. Could not load \"kg\" measure weight"
  const DimensionUnitMissing := "Correios shipping service. Could not load \"centimeter\" measure dimension"
  const CurrencyMissing := "Correios shipping service. Could not load \"BRL\" currency"
}
