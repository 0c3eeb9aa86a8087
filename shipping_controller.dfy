/** ShippingCorreiosController, the two parts that read and write the stored list of
    enabled services: `GetSelectedServices` encodes the checked services as
    "[id]:[id]", and `LoadSavedServices` marks a service as enabled when the stored string
    contains its id between brackets. The brackets keep one id from matching inside a
    longer one. */
module ShippingCorreiosController {
  import opened Wrappers
  import opened Text
  import opened Domain
  import opened ServiceTypes
  import opened CorreiosService

  function Bracket(id: string): (s: string)
    ensures |s| == |id| + 2 && s[0] == '[' && s[|s| - 1] == ']' && s[1..|s| - 1] == id
  {
    "[" + id + "]"
  }

  /** The ids of the catalog, in table order. */
  function CatalogIds(catalog: ServiceCatalog): (ids: seq<string>)
    ensures |ids| == |catalog.entries|
    ensures forall k :: 0 <= k < |ids| ==> ids[k] == catalog.entries[k].id
  {
    seq(|catalog.entries|, k requires 0 <= k < |catalog.entries| => catalog.entries[k].id)
  }

  /** An id that cannot be confused with the brackets or the separator. */
  predicate PlainId(id: string) {
    '[' !in id && ']' !in id && ':' !in id
  }

  /** Every id in the catalog is plain. */
  predicate PlainIds(catalog: ServiceCatalog) {
    forall k :: 0 <= k < |catalog.entries| ==> PlainId(catalog.entries[k].id)
  }

  /** The non-empty ids of the checked services, in the order they were checked. */
  function SelectedIds(catalog: ServiceCatalog, checked: seq<string>): (ids: seq<string>)
    ensures |ids| <= |checked|
    ensures forall k :: 0 <= k < |ids| ==> ids[k] != "" && ids[k] in CatalogIds(catalog)
  {
    if |checked| == 0 then []
    else
      var id := GetServiceId(catalog, checked[|checked| - 1]);
      assert id != "" ==> id in CatalogIds(catalog);
      SelectedIds(catalog, checked[..|checked| - 1]) + (if id != "" then [id] else [])
  }

  /** An id is selected exactly when some checked service has it. */
  lemma {:induction false} SelectedIdsMember(catalog: ServiceCatalog, checked: seq<string>, id: string)
    ensures id in SelectedIds(catalog, checked) <==>
              id != "" && exists k :: 0 <= k < |checked| && GetServiceId(catalog, checked[k]) == id
  {
    if |checked| > 0 {
      var n := |checked| - 1;
      var prefix := checked[..n];
      var last := GetServiceId(catalog, checked[n]);
      SelectedIdsMember(catalog, prefix, id);
      assert SelectedIds(catalog, checked) == SelectedIds(catalog, prefix) + (if last != "" then [last] else []);
      if exists k :: 0 <= k < |checked| && GetServiceId(catalog, checked[k]) == id {
        var k :| 0 <= k < |checked| && GetServiceId(catalog, checked[k]) == id;
        if k < n {
          assert prefix[k] == checked[k];
        } else {
          assert k == n;
        }
      }
      if exists k :: 0 <= k < |prefix| && GetServiceId(catalog, prefix[k]) == id {
        var k :| 0 <= k < |prefix| && GetServiceId(catalog, prefix[k]) == id;
        assert checked[k] == prefix[k];
      }
    }
  }

  /** "[a]:[b]:...[z]:" — each id in brackets followed by the separator. */
  function Bracketed(ids: seq<string>): (s: string)
    ensures |ids| == 0 <==> |s| == 0
    ensures |ids| > 0 ==> |s| >= 3 && s[|s| - 1] == ':' && s[|s| - 2] == ']'
  {
    if |ids| == 0 then "" else Bracket(ids[0]) + ":" + Bracketed(ids[1..])
  }

  lemma {:induction false} BracketedAppend(ids: seq<string>, id: string)
    ensures Bracketed(ids + [id]) == Bracketed(ids) + Bracket(id) + ":"
    decreases |ids|
  {
    if |ids| == 0 {
      assert ids + [id] == [id];
      assert [id][1..] == [];
    } else {
      var head, tail := Bracket(ids[0]) + ":", Bracketed(ids[1..]);
      assert (ids + [id])[0] == ids[0];
      assert (ids + [id])[1..] == ids[1..] + [id];
      assert Bracketed(ids + [id]) == head + Bracketed(ids[1..] + [id]);
      BracketedAppend(ids[1..], id);
      assert Bracketed(ids + [id]) == head + (tail + Bracket(id) + ":");
      assert Bracketed(ids) == head + tail;
      assert head + (tail + Bracket(id) + ":") == (head + tail) + Bracket(id) + ":";
    }
  }

  /** The stored form of a list of ids: bracketed and joined by ':', with no trailing ':'. */
  function EncodeServices(ids: seq<string>): (s: string)
    ensures ids == [] ==> s == ""
    ensures ids != [] ==> |s| >= 2 && s[0] == '[' && s[|s| - 1] == ']'
  {
    RemoveLastIfEndsWith(Bracketed(ids), ':')
  }

  /** The encoding, one id at a time from the front. */
  lemma EncodeCons(ids: seq<string>)
    requires ids != []
    ensures |ids| == 1 ==> EncodeServices(ids) == Bracket(ids[0])
    ensures |ids| > 1 ==> EncodeServices(ids) == Bracket(ids[0]) + ":" + EncodeServices(ids[1..])
  {
    var head := Bracket(ids[0]) + ":";
    var tail := Bracketed(ids[1..]);
    assert Bracketed(ids) == head + tail;
    if |ids| == 1 {
      assert tail == "";
      assert (head + tail)[..|head + tail| - 1] == Bracket(ids[0]);
    } else {
      assert (head + tail)[..|head + tail| - 1] == head + tail[..|tail| - 1];
    }
  }

  /** Checking one more service extends the encoding by that service's bracketed id. */
  lemma BracketedStep(catalog: ServiceCatalog, services: seq<string>, i: nat)
    requires i < |services|
    ensures var serviceId := GetServiceId(catalog, services[i]);
            Bracketed(SelectedIds(catalog, services[..i + 1]))
            == Bracketed(SelectedIds(catalog, services[..i])) + (if serviceId != "" then Bracket(serviceId) + ":" else "")
  {
    var serviceId := GetServiceId(catalog, services[i]);
    assert services[..i + 1][..i] == services[..i];
    assert services[..i + 1][i] == services[i];
    if serviceId != "" {
      BracketedAppend(SelectedIds(catalog, services[..i]), serviceId);
    } else {
      var before := SelectedIds(catalog, services[..i]);
      assert before + [] == before;
      assert SelectedIds(catalog, services[..i + 1]) == before;
      assert Bracketed(before) + "" == Bracketed(before);
    }
  }

  /** `GetSelectedServices`: appends "[id]:" for each checked service with an id, then drops
      the final ':'; a null checked list gives "". */
  method GetSelectedServices(catalog: ServiceCatalog, checked: Option<seq<string>>) returns (s: string)
    ensures checked.None? ==> s == ""
    ensures checked.Some? ==> s == EncodeServices(SelectedIds(catalog, checked.value))
  {
    var builder := "";
    if checked.Some? {
      var services := checked.value;
      for i := 0 to |services|
        invariant builder == Bracketed(SelectedIds(catalog, services[..i]))
      {
        var serviceId := GetServiceId(catalog, services[i]);
        BracketedStep(catalog, services, i);
        if serviceId != "" {
          builder := builder + Bracket(serviceId) + ":";
        }
      }
      assert services[..|services|] == services;
    }
    s := RemoveLastIfEndsWith(builder, ':');
  }

  /** Each id in brackets, in order: the tokens the decoder sees. */
  function Brackets(ids: seq<string>): (tokens: seq<string>)
    ensures |tokens| == |ids|
    ensures forall k :: 0 <= k < |ids| ==> tokens[k] == Bracket(ids[k])
  {
    seq(|ids|, k requires 0 <= k < |ids| => Bracket(ids[k]))
  }

  lemma {:induction false} SplitEncoded(ids: seq<string>)
    requires ids != []
    requires forall k :: 0 <= k < |ids| ==> ':' !in ids[k]
    ensures Split(EncodeServices(ids), ':') == Brackets(ids)
    decreases |ids|
  {
    EncodeCons(ids);
    assert ':' !in Bracket(ids[0]);
    if |ids| == 1 {
      SplitNoSeparator(Bracket(ids[0]), ':');
    } else {
      var head := Bracket(ids[0]);
      var rest := ids[1..];
      assert forall k :: 0 <= k < |rest| ==> rest[k] == ids[k + 1];
      SplitEncoded(rest);
      var tail := EncodeServices(rest);
      var encoded := EncodeServices(ids);
      assert encoded == head + [':'] + tail;
      SplitPrefix(head, ':', tail);
      assert Split(encoded, ':') == [head] + Brackets(rest);
      assert Brackets(ids) == [head] + Brackets(rest);
    }
  }

  /** Round trip: decoding the stored form of a non-empty list of ids without ']' or ':'
      gives the list back. */
  lemma EncodeDecodeRoundTrip(ids: seq<string>)
    requires ids != []
    requires forall k :: 0 <= k < |ids| ==> ']' !in ids[k] && ':' !in ids[k]
    ensures DecodeServices(EncodeServices(ids)) == Success(ids)
  {
    var encoded := EncodeServices(ids);
    assert RemoveLastIfEndsWith(encoded, ':') == encoded;
    SplitEncoded(ids);
    var tokens := ServiceTokens(encoded);
    assert tokens == Brackets(ids);
    assert "" !in tokens by {
      forall k | 0 <= k < |tokens| ensures tokens[k] != "" {
        assert |tokens[k]| == |ids[k]| + 2;
      }
    }
    forall k | 0 <= k < |ids| ensures TokenCode(tokens[k]) == ids[k] {
      assert tokens[k][1..] == ids[k] + [']'];
      RemoveAllTrailing(ids[k], ']');
    }
    assert TokenCodes(tokens) == ids;
  }

  /** The bracketed `x` starts a bracketed `a` exactly when `x` is `a`. */
  lemma HeadMatch(a: string, x: string, rest: string)
    requires ']' !in a && ']' !in x
    ensures OccursAt(Bracket(a) + rest, Bracket(x), 0) <==> x == a
  {
    var s := Bracket(a) + rest;
    var t := Bracket(x);
    if OccursAt(s, t, 0) {
      assert forall i :: 0 <= i < |t| ==> s[i] == t[i] by {
        assert s[..|t|] == t;
      }
      assert forall i :: 1 <= i <= |a| ==> s[i] == a[i - 1] != ']';
      assert forall i :: 1 <= i <= |x| ==> t[i] == x[i - 1] != ']';
      assert s[|a| + 1] == ']' && t[|x| + 1] == ']';
      assert |x| == |a|;
      assert x == t[1..|t| - 1] == s[1..|a| + 1] == a;
    }
    if x == a {
      assert s[0..|t|] == t;
    }
  }

  /** A single bracketed id contains "[x]" exactly when it is "[x]". */
  lemma ContainsSingle(a: string, x: string)
    requires PlainId(a) && PlainId(x)
    ensures Contains(Bracket(a), Bracket(x)) <==> x == a
  {
    var w, t := Bracket(a), Bracket(x);
    assert forall i :: 1 <= i < |w| ==> w[i] != '[' by {
      assert forall i :: 1 <= i < |w| - 1 ==> w[i] == a[i - 1];
    }
    assert w + "" == w;
    ContainsAfterHead(w, "", t);
    NotContainedInEmpty(t);
    HeadMatch(a, x, "");
  }

  /** "[a]:" followed by `rest` contains "[x]" exactly when `x` is `a` or `rest` contains it. */
  lemma ContainsCons(a: string, rest: string, x: string)
    requires PlainId(a) && PlainId(x)
    ensures Contains(Bracket(a) + ":" + rest, Bracket(x)) <==> x == a || Contains(rest, Bracket(x))
  {
    var w, t := Bracket(a) + ":", Bracket(x);
    assert forall i :: 1 <= i < |w| ==> w[i] != '[' by {
      assert forall i :: 1 <= i < |a| + 1 ==> w[i] == a[i - 1];
    }
    ContainsAfterHead(w, rest, t);
    assert w + rest == Bracket(a) + (":" + rest);
    HeadMatch(a, x, ":" + rest);
  }

  /** One step of the induction below: the first id, then the rest of the list. */
  lemma ContainsStep(ids: seq<string>, x: string)
    requires |ids| > 1
    requires PlainId(ids[0]) && PlainId(x)
    requires Contains(EncodeServices(ids[1..]), Bracket(x)) <==> x in ids[1..]
    ensures Contains(EncodeServices(ids), Bracket(x)) <==> x in ids
  {
    EncodeCons(ids);
    ContainsCons(ids[0], EncodeServices(ids[1..]), x);
    assert ids == [ids[0]] + ids[1..];
  }

  /** Bracketed membership is exact: the stored form of plain ids contains "[x]", for a
      plain `x`, exactly when `x` is one of the ids. */
  lemma {:induction false} ContainsIffMember(ids: seq<string>, x: string)
    requires forall k :: 0 <= k < |ids| ==> PlainId(ids[k])
    requires PlainId(x)
    ensures Contains(EncodeServices(ids), Bracket(x)) <==> x in ids
    decreases |ids|
  {
    if |ids| == 0 {
      NotContainedInEmpty(Bracket(x));
    } else if |ids| == 1 {
      EncodeCons(ids);
      ContainsSingle(ids[0], x);
    } else {
      assert forall k :: 0 <= k < |ids| - 1 ==> ids[1..][k] == ids[k + 1];
      ContainsIffMember(ids[1..], x);
      ContainsStep(ids, x);
    }
  }

  /** The delimiter at work: "[045101]" does not contain "[04510]", though "045101" contains "04510". */
  lemma LongerIdDoesNotMatch()
    ensures Contains("045101", "04510")
    ensures !Contains("[045101]", Bracket("04510"))
  {
    assert OccursAt("045101", "04510", 0);
    var s, t := "[045101]", Bracket("04510");
    assert !OccursAt(s, t, 0) by {
      assert s[6] != t[6];
    }
    assert !OccursAt(s, t, 1) by {
      assert s[1] != t[0];
    }
  }

  /** The service configuration page's model; the controller fills `servicesOffered`. */
  class CorreiosShippingModel {
    var servicesOffered: seq<string>

    constructor ()
      ensures servicesOffered == []
    {
      servicesOffered := [];
    }

    method AddServiceOffered(service: string)
      modifies this
      ensures servicesOffered == old(servicesOffered) + [service]
    {
      servicesOffered := servicesOffered + [service];
    }
  }

  /** The test `LoadSavedServices` applies to one service. */
  predicate IsSaved(catalog: ServiceCatalog, stored: string, service: string)
    ensures IsSaved(catalog, stored, service) ==> service in Services(catalog) && stored != ""
  {
    var serviceId := GetServiceId(catalog, service);
    serviceId != "" && stored != "" && Contains(stored, Bracket(serviceId))
  }

  /** The services among `names` that pass the test, in order. */
  function SavedServices(catalog: ServiceCatalog, stored: string, names: seq<string>): (saved: seq<string>)
    ensures |saved| <= |names|
    ensures forall k :: 0 <= k < |saved| ==> saved[k] in names && IsSaved(catalog, stored, saved[k])
  {
    if |names| == 0 then []
    else
      var last := names[|names| - 1];
      SavedServices(catalog, stored, names[..|names| - 1]) + (if IsSaved(catalog, stored, last) then [last] else [])
  }

  /** `LoadSavedServices`: for a non-empty stored list, adds each catalog service, in table
      order, whose id appears in brackets in the stored list. */
  method LoadSavedServices(model: CorreiosShippingModel, catalog: ServiceCatalog, stored: string)
    modifies model
    ensures model.servicesOffered == old(model.servicesOffered) + SavedServices(catalog, stored, Services(catalog))
  {
    var services := Services(catalog);
    if stored == "" {
      assert forall n :: !IsSaved(catalog, stored, n);
      SavedNone(catalog, stored, services);
      return;
    }
    for i := 0 to |services|
      invariant model.servicesOffered == old(model.servicesOffered) + SavedServices(catalog, stored, services[..i])
    {
      var serviceId := GetServiceId(catalog, services[i]);
      SavedStep(catalog, stored, services, i);
      if serviceId != "" && stored != "" {
        if Contains(stored, Bracket(serviceId)) {
          model.AddServiceOffered(services[i]);
        }
      }
    }
    assert services[..|services|] == services;
  }

  /** One turn of the loading loop: the next service is appended exactly when it passes. */
  lemma SavedStep(catalog: ServiceCatalog, stored: string, names: seq<string>, i: int)
    requires 0 <= i < |names|
    ensures SavedServices(catalog, stored, names[..i + 1])
         == SavedServices(catalog, stored, names[..i]) + (if IsSaved(catalog, stored, names[i]) then [names[i]] else [])
  {
    assert names[..i + 1][..i] == names[..i];
  }

  lemma {:induction false} SavedNone(catalog: ServiceCatalog, stored: string, names: seq<string>)
    requires stored == ""
    ensures SavedServices(catalog, stored, names) == []
  {
    if |names| > 0 {
      SavedNone(catalog, stored, names[..|names| - 1]);
    }
  }

  /** A service is loaded exactly when it is among `names` and passes the test. */
  lemma {:induction false} SavedMember(catalog: ServiceCatalog, stored: string, names: seq<string>, service: string)
    ensures service in SavedServices(catalog, stored, names) <==> service in names && IsSaved(catalog, stored, service)
  {
    if |names| > 0 {
      var prefix := names[..|names| - 1];
      SavedMember(catalog, stored, prefix, service);
      assert names == prefix + [names[|names| - 1]];
    }
  }

  /** Each service is loaded at most once when the names are distinct. */
  lemma {:induction false} SavedDistinct(catalog: ServiceCatalog, stored: string, names: seq<string>)
    requires forall i, j :: 0 <= i < j < |names| ==> names[i] != names[j]
    ensures var saved := SavedServices(catalog, stored, names);
            forall i, j :: 0 <= i < j < |saved| ==> saved[i] != saved[j]
  {
    if |names| > 0 {
      var prefix := names[..|names| - 1];
      var last := names[|names| - 1];
      SavedDistinct(catalog, stored, prefix);
      SavedMember(catalog, stored, prefix, last);
      assert last !in prefix;
    }
  }

  /** Saving then loading: with plain catalog ids, the services loaded from the stored form
      of the checked services are exactly the catalog services whose id was checked. */
  lemma ReloadSelectsChecked(catalog: ServiceCatalog, checked: seq<string>, service: string)
    requires PlainIds(catalog)
    ensures var stored := EncodeServices(SelectedIds(catalog, checked));
            service in SavedServices(catalog, stored, Services(catalog)) <==>
              && service in Services(catalog)
              && GetServiceId(catalog, service) != ""
              && GetServiceId(catalog, service) in SelectedIds(catalog, checked)
  {
    var ids := SelectedIds(catalog, checked);
    var stored := EncodeServices(ids);
    SavedMember(catalog, stored, Services(catalog), service);
    var serviceId := GetServiceId(catalog, service);
    forall k | 0 <= k < |ids| ensures PlainId(ids[k]) {
      var j :| 0 <= j < |catalog.entries| && CatalogIds(catalog)[j] == ids[k];
    }
    if service in Services(catalog) && serviceId != "" {
      assert PlainId(serviceId);
      ContainsIffMember(ids, serviceId);
      assert serviceId in ids ==> stored != "";
    }
  }
}
