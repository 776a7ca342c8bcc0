/** The store-driven selector dialog (src/components/StateSelector.tsx): it is
    shown only once a state is selected, wires its buttons and its LOB select to
    the store setters, and both its close button and its Continue button reset
    the store. */
module StateSelector {
  import opened MarketTypes
  import opened MarketStore

  /** `if (!selectedState) return null`: the dialog renders only with a state selected. */
  function Renders(store: Store): (shown: bool)
    reads store
    ensures shown <==> store.selectedState != ""
  {
    store.selectedState != ""
  }

  /** `handleClose`: three setter calls, in order, that leave the store at its
      initial values whatever it held before. */
  method HandleClose(store: Store)
    modifies store
    ensures store.selectedState == "" && store.businessType == Personal && store.selectedLOB == ""
    ensures !Renders(store)
    ensures store.calls == old(store.calls) + [SetStateCall(""), SetBusinessTypeCall(Personal), SetLobCall("")]
  {
    store.SetState("");
    store.SetBusinessType(Personal);
    store.SetLob("");
  }

  /** `disabled={!businessType || !selectedLOB}`. A store business type is never
      empty, so only a missing LOB disables the button. */
  predicate ContinueDisabled(businessType: BusinessType, lob: string)
  {
    BusinessTypeName(businessType) == "" || lob == ""
  }

  /** Continue is disabled exactly when no LOB is selected. */
  lemma ContinueDisabledIffNoLob(businessType: BusinessType, lob: string)
    ensures ContinueDisabled(businessType, lob) <==> lob == ""
  {
  }

  /** A click on Continue: a disabled button does nothing; an enabled one runs
      `handleClose`, so it resets the store exactly as closing does. */
  method Continue(store: Store) returns (fired: bool)
    modifies store
    ensures fired <==> old(store.selectedLOB) != ""
    ensures fired ==> store.selectedState == "" && store.businessType == Personal && store.selectedLOB == ""
    ensures fired ==> store.calls == old(store.calls) + [SetStateCall(""), SetBusinessTypeCall(Personal), SetLobCall("")]
    ensures fired ==> !Renders(store)
    ensures !fired ==> unchanged(store)
  {
    ContinueDisabledIffNoLob(store.businessType, store.selectedLOB);
    fired := !ContinueDisabled(store.businessType, store.selectedLOB);
    if fired {
      HandleClose(store);
    }
  }

  /** A business-type button: only `setBusinessType` is called, so the LOB stays and
      the dialog stays open. */
  method ChooseBusinessType(store: Store, t: BusinessType)
    modifies store
    ensures store.businessType == t
    ensures store.selectedState == old(store.selectedState) && store.selectedLOB == old(store.selectedLOB)
    ensures store.calls == old(store.calls) + [SetBusinessTypeCall(t)]
    ensures Renders(store) == old(Renders(store))
  {
    store.SetBusinessType(t);
  }

  /** The select's `onChange`: the chosen option's value goes to `setLOB`; the
      dialog stays open. */
  method ChooseLob(store: Store, value: string)
    modifies store
    ensures store.selectedLOB == value
    ensures store.selectedState == old(store.selectedState) && store.businessType == old(store.businessType)
    ensures store.calls == old(store.calls) + [SetLobCall(value)]
    ensures Renders(store) == old(Renders(store))
  {
    store.SetLob(value);
  }

  /** The option values of the LOB select: the `""` placeholder, then the catalog's
      products for the business type in catalog order. A type missing from the
      catalog has no list to map over (`undefined.map`), which is `None` here. */
  function LobOptions(catalog: LobCatalog, businessType: BusinessType): (r: Option<seq<string>>)
    ensures r.None? <==> businessType !in catalog
    ensures r.Some? ==> |r.value| == |catalog[businessType]| + 1 && r.value[0] == ""
    ensures r.Some? ==> forall i :: 0 <= i < |catalog[businessType]| ==> r.value[i + 1] == catalog[businessType][i]
  {
    if businessType in catalog then Some([""] + catalog[businessType]) else None
  }

  /** After choosing option `i` of the select, Continue is enabled exactly when a real
      product (not the placeholder) was chosen, provided no product name is empty. */
  lemma ContinueAfterOption(catalog: LobCatalog, businessType: BusinessType, i: nat)
    requires businessType in catalog
    requires forall j :: 0 <= j < |catalog[businessType]| ==> catalog[businessType][j] != ""
    requires i < |LobOptions(catalog, businessType).value|
    ensures ContinueDisabled(businessType, LobOptions(catalog, businessType).value[i]) <==> i == 0
  {
    var options := LobOptions(catalog, businessType).value;
    if i > 0 {
      assert options[i] == catalog[businessType][i - 1];
    }
  }
}
