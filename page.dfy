/** The URL-driven page (src/app/page.tsx): the selection lives in the query
    parameters `state`, `type` and `lob`; handlers rewrite the parameters with
    the reset rules and produce the URL navigated to; the visible panels are a
    projection of the three fields. */
module MarketPage {
  import opened MarketTypes
  import opened QueryParams

  /** The selection as the page reads it. Values are taken verbatim from the query,
      so `businessType` is any string, not only the two business types. */
  datatype Selection = Selection(state: string, businessType: string, lob: string)

  /** `searchParams.get(name) || ''`: a missing parameter and an empty one both read as "". */
  function ParamOrEmpty(p: Params, name: string): (v: string)
    ensures !Has(p, name) ==> v == ""
    ensures Get(p, name).Some? ==> v == Get(p, name).value
  {
    match Get(p, name)
    case None => ""
    case Some(s) => s
  }

  /** The selection read from the query (no check against the state table or the catalog). */
  function ReadSelection(p: Params): (s: Selection)
    ensures !Has(p, "state") ==> s.state == ""
    ensures !Has(p, "type") ==> s.businessType == ""
    ensures !Has(p, "lob") ==> s.lob == ""
    ensures Get(p, "state").Some? ==> s.state == Get(p, "state").value
    ensures Get(p, "type").Some? ==> s.businessType == Get(p, "type").value
    ensures Get(p, "lob").Some? ==> s.lob == Get(p, "lob").value
  {
    Selection(ParamOrEmpty(p, "state"), ParamOrEmpty(p, "type"), ParamOrEmpty(p, "lob"))
  }

  /** One entry of the `updates` record: a key and a string or null. */
  datatype Update = Update(key: string, value: Option<string>)

  /** JavaScript truthiness of a `string | null`: non-null and non-empty. */
  predicate Truthy(v: Option<string>)
  {
    v.Some? && v.value != ""
  }

  /** One step of the `forEach` in `updateURL`: `set` for a truthy value, `delete` otherwise. */
  function ApplyUpdate(p: Params, u: Update): Params
  {
    if Truthy(u.value) then Set(p, u.key, u.value.value) else Delete(p, u.key)
  }

  /** The updates applied in record order, the first one first. */
  function ApplyUpdates(p: Params, updates: seq<Update>): Params
    decreases |updates|
  {
    if updates == [] then p
    else ApplyUpdate(ApplyUpdates(p, updates[..|updates| - 1]), updates[|updates| - 1])
  }

  /** The keys of an update record are distinct (they are the keys of an object literal). */
  predicate DistinctKeys(updates: seq<Update>)
  {
    forall i, j :: 0 <= i < j < |updates| ==> updates[i].key != updates[j].key
  }

  /** True when `k` is one of the keys named in `updates`. */
  predicate Named(updates: seq<Update>, k: string)
  {
    exists i :: 0 <= i < |updates| && updates[i].key == k
  }

  /** What `updateURL` promises about the parameters: each key with a truthy value is
      set to it, each key with null or "" is absent, and every other key keeps its
      pairs and its value. */
  lemma {:induction false} ApplyUpdatesSemantics(p: Params, updates: seq<Update>)
    requires DistinctKeys(updates)
    ensures forall i :: 0 <= i < |updates| && Truthy(updates[i].value) ==>
              Get(ApplyUpdates(p, updates), updates[i].key) == updates[i].value
    ensures forall i :: 0 <= i < |updates| && !Truthy(updates[i].value) ==>
              !Has(ApplyUpdates(p, updates), updates[i].key)
    ensures forall k :: !Named(updates, k) ==> Get(ApplyUpdates(p, updates), k) == Get(p, k)
    ensures forall q: Param :: !Named(updates, q.name) ==> (q in ApplyUpdates(p, updates) <==> q in p)
    decreases |updates|
  {
    if updates != [] {
      var n := |updates| - 1;
      var init := updates[..n];
      var u := updates[n];
      ApplyUpdatesSemantics(p, init);
      var mid := ApplyUpdates(p, init);
      assert ApplyUpdates(p, updates) == ApplyUpdate(mid, u);
      assert forall i :: 0 <= i < n ==> init[i] == updates[i];
      forall k | !Named(updates, k)
        ensures Get(ApplyUpdates(p, updates), k) == Get(p, k)
      {
        assert k != u.key && !Named(init, k);
      }
      forall q: Param | !Named(updates, q.name)
        ensures q in ApplyUpdates(p, updates) <==> q in p
      {
        assert q.name != u.key && !Named(init, q.name);
      }
      forall i | 0 <= i < n
        ensures Truthy(updates[i].value) ==> Get(ApplyUpdates(p, updates), updates[i].key) == updates[i].value
        ensures !Truthy(updates[i].value) ==> !Has(ApplyUpdates(p, updates), updates[i].key)
      {
        assert updates[i].key != u.key;
        assert Get(ApplyUpdates(p, updates), updates[i].key) == Get(mid, updates[i].key);
      }
    }
  }

  /** The target of the navigation: "/" exactly when the query string is empty. */
  function TargetUrl(p: Params): (url: string)
    ensures url == "/" <==> p == []
    ensures p != [] ==> url == "/?" + Serialize(p)
  {
    var query := Serialize(p);
    if query != "" then "/?" + query else "/"
  }

  /** `updateURL`: copies the current parameters, applies each update in place with
      `set` or `delete`, and returns the new parameters and the URL pushed to the
      router. */
  method UpdateUrl(current: Params, updates: seq<Update>) returns (next: Params, url: string)
    ensures next == ApplyUpdates(current, updates)
    ensures url == TargetUrl(next)
  {
    next := current;
    var i := 0;
    while i < |updates|
      invariant 0 <= i <= |updates|
      invariant next == ApplyUpdates(current, updates[..i])
    {
      var u := updates[i];
      if u.value.Some? && u.value.value != "" {
        next := Set(next, u.key, u.value.value);
      } else {
        next := Delete(next, u.key);
      }
      assert updates[..i + 1][..i] == updates[..i];
      i := i + 1;
    }
    assert updates[..i] == updates;
    var query := Serialize(next);
    url := if query != "" then "/?" + query else "/";
  }

  /** The update record of `handleStateSelect`: set the state, reset type and LOB. */
  function StateUpdates(code: string): seq<Update>
  {
    [Update("state", Some(code)), Update("type", None), Update("lob", None)]
  }

  /** The update record of `handleBusinessTypeSelect`: set the type, reset the LOB. */
  function BusinessTypeUpdates(t: BusinessType): seq<Update>
  {
    [Update("type", Some(BusinessTypeName(t))), Update("lob", None)]
  }

  /** The update record of `handleLOBSelect`. */
  function LobUpdates(lob: string): seq<Update>
  {
    [Update("lob", Some(lob))]
  }

  /** Selecting a state sets `state` and removes `type` and `lob`; no licensed check is
      made, and keys other than the three are left as they were. */
  lemma SelectStateEffect(p: Params, code: string)
    ensures ReadSelection(ApplyUpdates(p, StateUpdates(code))) == Selection(code, "", "")
    ensures !Has(ApplyUpdates(p, StateUpdates(code)), "type")
    ensures !Has(ApplyUpdates(p, StateUpdates(code)), "lob")
    ensures forall k :: k != "state" && k != "type" && k != "lob" ==>
              Get(ApplyUpdates(p, StateUpdates(code)), k) == Get(p, k)
  {
    var us := StateUpdates(code);
    ApplyUpdatesSemantics(p, us);
    assert us[0].key == "state" && us[1].key == "type" && us[2].key == "lob";
    forall k | k != "state" && k != "type" && k != "lob" ensures !Named(us, k) { }
  }

  /** Selecting a business type sets `type` and removes `lob`, also when the type is
      the current one; `state` and every other key are unchanged. */
  lemma SelectBusinessTypeEffect(p: Params, t: BusinessType)
    ensures ReadSelection(ApplyUpdates(p, BusinessTypeUpdates(t)))
            == Selection(ReadSelection(p).state, BusinessTypeName(t), "")
    ensures !Has(ApplyUpdates(p, BusinessTypeUpdates(t)), "lob")
    ensures forall k :: k != "type" && k != "lob" ==>
              Get(ApplyUpdates(p, BusinessTypeUpdates(t)), k) == Get(p, k)
  {
    var us := BusinessTypeUpdates(t);
    ApplyUpdatesSemantics(p, us);
    assert us[0].key == "type" && us[1].key == "lob";
    forall k | k != "type" && k != "lob" ensures !Named(us, k) { }
  }

  /** Selecting an LOB changes only `lob`; selecting "" removes it. */
  lemma SelectLobEffect(p: Params, lob: string)
    ensures ReadSelection(ApplyUpdates(p, LobUpdates(lob)))
            == Selection(ReadSelection(p).state, ReadSelection(p).businessType, lob)
    ensures lob == "" ==> !Has(ApplyUpdates(p, LobUpdates(lob)), "lob")
    ensures forall k :: k != "lob" ==> Get(ApplyUpdates(p, LobUpdates(lob)), k) == Get(p, k)
  {
    var us := LobUpdates(lob);
    ApplyUpdatesSemantics(p, us);
    assert us[0].key == "lob";
    forall k | k != "lob" ensures !Named(us, k) { }
  }

  /** Which parts of the page are rendered besides the map, which is always shown. */
  datatype Panels = Panels(refine: bool, productDropdown: bool, results: bool)

  /** `showResults` and the conditions that guard the refine panel, the product
      dropdown inside it and the results. */
  function VisiblePanels(s: Selection): (v: Panels)
    ensures v.results <==> s.state != "" && s.businessType != "" && s.lob != ""
    ensures v.refine <==> s.state != "" && !v.results
    ensures v.productDropdown <==> v.refine && s.businessType != ""
    ensures !(v.refine && v.results)
    ensures v.productDropdown ==> s.lob == ""
  {
    var showResults := s.state != "" && s.businessType != "" && s.lob != "";
    var refine := s.state != "" && !showResults;
    Panels(refine, refine && s.businessType != "", showResults)
  }

  /** `handleStateSelect`: the page shows the refine panel without the dropdown. */
  method HandleStateSelect(current: Params, code: string) returns (next: Params, url: string)
    ensures next == ApplyUpdates(current, StateUpdates(code))
    ensures url == TargetUrl(next)
    ensures ReadSelection(next) == Selection(code, "", "")
    ensures code != "" ==> VisiblePanels(ReadSelection(next)) == Panels(true, false, false)
    ensures code == "" ==> VisiblePanels(ReadSelection(next)) == Panels(false, false, false)
  {
    next, url := UpdateUrl(current, StateUpdates(code));
    SelectStateEffect(current, code);
  }

  /** `handleBusinessTypeSelect`: with a state selected, the page shows the refine
      panel and the product dropdown. */
  method HandleBusinessTypeSelect(current: Params, t: BusinessType) returns (next: Params, url: string)
    ensures next == ApplyUpdates(current, BusinessTypeUpdates(t))
    ensures url == TargetUrl(next)
    ensures ReadSelection(next) == Selection(ReadSelection(current).state, BusinessTypeName(t), "")
    ensures ReadSelection(current).state != "" ==>
              VisiblePanels(ReadSelection(next)) == Panels(true, true, false)
  {
    next, url := UpdateUrl(current, BusinessTypeUpdates(t));
    SelectBusinessTypeEffect(current, t);
  }

  /** `handleLOBSelect`: a non-empty LOB on top of a state and a type shows the results. */
  method HandleLobSelect(current: Params, lob: string) returns (next: Params, url: string)
    ensures next == ApplyUpdates(current, LobUpdates(lob))
    ensures url == TargetUrl(next)
    ensures ReadSelection(next) == ReadSelection(current).(lob := lob)
    ensures ReadSelection(current).state != "" && ReadSelection(current).businessType != "" ==>
              (VisiblePanels(ReadSelection(next)).results <==> lob != "")
  {
    next, url := UpdateUrl(current, LobUpdates(lob));
    SelectLobEffect(current, lob);
  }

  /** Selecting a state, then a type, then an LOB (all non-empty) and reading the
      query back gives exactly that selection, and the results are shown. */
  lemma {:induction false} SelectionRoundTrip(p: Params, code: string, t: BusinessType, lob: string)
    requires code != "" && lob != ""
    ensures var q := ApplyUpdates(ApplyUpdates(ApplyUpdates(p, StateUpdates(code)),
                                               BusinessTypeUpdates(t)), LobUpdates(lob));
            && ReadSelection(q) == Selection(code, BusinessTypeName(t), lob)
            && VisiblePanels(ReadSelection(q)) == Panels(false, false, true)
  {
    var p1 := ApplyUpdates(p, StateUpdates(code));
    SelectStateEffect(p, code);
    var p2 := ApplyUpdates(p1, BusinessTypeUpdates(t));
    SelectBusinessTypeEffect(p1, t);
    SelectLobEffect(p2, lob);
  }

  lemma ApplyOne(p: Params, a: Update)
    ensures ApplyUpdates(p, [a]) == ApplyUpdate(p, a)
  {
    assert [a][..0] == [];
  }

  lemma ApplyTwo(p: Params, a: Update, b: Update)
    ensures ApplyUpdates(p, [a, b]) == ApplyUpdate(ApplyUpdate(p, a), b)
  {
    assert [a, b][..1] == [a];
    ApplyOne(p, a);
  }

  lemma ApplyThree(p: Params, a: Update, b: Update, c: Update)
    ensures ApplyUpdates(p, [a, b, c]) == ApplyUpdate(ApplyUpdate(ApplyUpdate(p, a), b), c)
  {
    var us := [a, b, c];
    assert us[..|us| - 1] == [a, b];
    ApplyTwo(p, a, b);
    assert ApplyUpdates(p, us) == ApplyUpdate(ApplyUpdates(p, [a, b]), c);
  }

  lemma StateOnEmpty(code: string)
    requires code != ""
    ensures ApplyUpdates([], StateUpdates(code)) == [Param("state", code)]
  {
    var s1 := [Param("state", code)];
    ApplyThree([], Update("state", Some(code)), Update("type", None), Update("lob", None));
    assert ApplyUpdate([], Update("state", Some(code))) == s1;
    assert Delete(s1, "type") == s1;
    assert Delete(s1, "lob") == s1;
  }

  lemma BusinessTypeAfterState(code: string, t: BusinessType)
    ensures ApplyUpdates([Param("state", code)], BusinessTypeUpdates(t))
            == [Param("state", code), Param("type", BusinessTypeName(t))]
  {
    var s1 := [Param("state", code)];
    var name := BusinessTypeName(t);
    var s2 := s1 + [Param("type", name)];
    ApplyTwo(s1, Update("type", Some(name)), Update("lob", None));
    assert "state" != "type" && "type" != "lob" && "state" != "lob";
    assert !Has(s1, "type");
    assert Set(s1, "type", name) == s2;
    assert Delete(s2[1..], "lob") == s2[1..];
    assert Delete(s2, "lob") == [s2[0]] + Delete(s2[1..], "lob");
  }

  /** From an empty query the three handlers build exactly the pairs
      `state`, `type`, `lob` in that order. */
  lemma {:induction false} QueryFromEmpty(code: string, t: BusinessType, lob: string)
    requires code != "" && lob != ""
    ensures ApplyUpdates(ApplyUpdates(ApplyUpdates([], StateUpdates(code)),
                                      BusinessTypeUpdates(t)), LobUpdates(lob))
            == [Param("state", code), Param("type", BusinessTypeName(t)), Param("lob", lob)]
  {
    StateOnEmpty(code);
    BusinessTypeAfterState(code, t);
    var s2 := [Param("state", code), Param("type", BusinessTypeName(t))];
    ApplyOne(s2, Update("lob", Some(lob)));
    assert !Has(s2, "lob");
    assert ApplyUpdates(s2, LobUpdates(lob)) == s2 + [Param("lob", lob)];
  }
}
