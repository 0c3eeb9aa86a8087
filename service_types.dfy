/** CorreiosServiceType: the table of carrier services with their display names and ids.
    The table itself is not part of this model; it is a `ServiceCatalog` value, and lookups
    take the first matching entry and give "" when nothing matches. */
module ServiceTypes {
  import opened Domain

  /** `CorreiosServiceType.Services`: the display names, in table order. */
  function Services(catalog: ServiceCatalog): (names: seq<string>)
    ensures |names| == |catalog.entries|
    ensures forall k :: 0 <= k < |names| ==> names[k] == catalog.entries[k].name
  {
    seq(|catalog.entries|, k requires 0 <= k < |catalog.entries| => catalog.entries[k].name)
  }

  /** Index of the first entry named `name`, or `|entries|` when there is none. */
  function IndexOfName(entries: seq<ServiceEntry>, name: string): (k: nat)
    ensures k <= |entries|
    ensures k < |entries| ==> entries[k].name == name
    ensures forall j :: 0 <= j < k ==> entries[j].name != name
  {
    if |entries| == 0 then 0
    else if entries[0].name == name then 0
    else 1 + IndexOfName(entries[1..], name)
  }

  /** Index of the first entry whose id is `id`, or `|entries|` when there is none. */
  function IndexOfId(entries: seq<ServiceEntry>, id: string): (k: nat)
    ensures k <= |entries|
    ensures k < |entries| ==> entries[k].id == id
    ensures forall j :: 0 <= j < k ==> entries[j].id != id
  {
    if |entries| == 0 then 0
    else if entries[0].id == id then 0
    else 1 + IndexOfId(entries[1..], id)
  }

  /** `CorreiosServiceType.GetServiceId(name)`. */
  function GetServiceId(catalog: ServiceCatalog, name: string): (id: string)
    ensures name !in Services(catalog) ==> id == ""
    ensures name in Services(catalog) ==> exists k :: 0 <= k < |catalog.entries| && catalog.entries[k] == ServiceEntry(name, id)
  {
    var k := IndexOfName(catalog.entries, name);
    if k < |catalog.entries| then catalog.entries[k].id else ""
  }

  /** `CorreiosServiceType.GetServiceName(id)`. */
  function GetServiceName(catalog: ServiceCatalog, id: string): (name: string)
    ensures (forall k :: 0 <= k < |catalog.entries| ==> catalog.entries[k].id != id) ==> name == ""
    ensures (exists k :: 0 <= k < |catalog.entries| && catalog.entries[k].id == id) ==>
              exists k :: 0 <= k < |catalog.entries| && catalog.entries[k] == ServiceEntry(name, id)
  {
    var k := IndexOfId(catalog.entries, id);
    if k < |catalog.entries| then catalog.entries[k].name else ""
  }

  /** No two entries share an id. */
  predicate DistinctIds(catalog: ServiceCatalog) {
    forall i, j :: 0 <= i < j < |catalog.entries| ==> catalog.entries[i].id != catalog.entries[j].id
  }

  /** No two entries share a name. */
  predicate DistinctNames(catalog: ServiceCatalog) {
    forall i, j :: 0 <= i < j < |catalog.entries| ==> catalog.entries[i].name != catalog.entries[j].name
  }

  /** Name to id and back gives the name again, for every service in a table whose ids are distinct. */
  lemma NameIdRoundTrip(catalog: ServiceCatalog, name: string)
    requires DistinctIds(catalog)
    requires name in Services(catalog)
    ensures GetServiceName(catalog, GetServiceId(catalog, name)) == name
  {
    var e := catalog.entries;
    var k := IndexOfName(e, name);
    assert Services(catalog)[k] == name by {
      var i :| 0 <= i < |e| && Services(catalog)[i] == name;
      assert k <= i;
    }
    var j := IndexOfId(e, e[k].id);
    assert j <= k;
    assert e[j].id == e[k].id;
  }

  /** Id to name and back gives the id again, for every id in a table whose names are distinct. */
  lemma IdNameRoundTrip(catalog: ServiceCatalog, id: string)
    requires DistinctNames(catalog)
    requires exists k :: 0 <= k < |catalog.entries| && catalog.entries[k].id == id
    ensures GetServiceId(catalog, GetServiceName(catalog, id)) == id
  {
    var e := catalog.entries;
    var k := IndexOfId(e, id);
    var i :| 0 <= i < |e| && e[i].id == id;
    assert k <= i;
    assert Services(catalog)[k] == e[k].name;
    var j := IndexOfName(e, e[k].name);
    assert j <= k;
    assert e[j].name == e[k].name;
  }
}
