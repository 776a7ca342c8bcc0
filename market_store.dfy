/** The shared selection store (src/store/useMarketStore.ts): three fields and
    three setters, each of which replaces one field and nothing else. The
    `calls` log records every setter call in order, which is how subscribers
    observe the store; it lets callers state "no update" and "exactly once". */
module MarketStore {
  import opened MarketTypes

  /** One call of a store setter. */
  datatype StoreCall =
    | SetStateCall(code: string)
    | SetBusinessTypeCall(businessType: BusinessType)
    | SetLobCall(lob: string)

  class Store {
    var selectedState: string
    /** Typed `BusinessType`: always "Personal" or "Commercial", never empty. */
    var businessType: BusinessType
    var selectedLOB: string
    ghost var calls: seq<StoreCall>

    /** The store starts with no state, business type "Personal" and no LOB. */
    constructor ()
      ensures selectedState == "" && businessType == Personal && selectedLOB == ""
      ensures BusinessTypeName(businessType) == "Personal"
      ensures calls == []
    {
      selectedState := "";
      businessType := Personal;
      selectedLOB := "";
      calls := [];
    }

    /** `setState`: replaces the state only; business type and LOB are kept. */
    method SetState(code: string)
      modifies this
      ensures selectedState == code
      ensures businessType == old(businessType) && selectedLOB == old(selectedLOB)
      ensures calls == old(calls) + [SetStateCall(code)]
    {
      selectedState := code;
      calls := calls + [SetStateCall(code)];
    }

    /** `setBusinessType`: replaces the business type only; the LOB is kept. */
    method SetBusinessType(t: BusinessType)
      modifies this
      ensures businessType == t
      ensures selectedState == old(selectedState) && selectedLOB == old(selectedLOB)
      ensures calls == old(calls) + [SetBusinessTypeCall(t)]
    {
      businessType := t;
      calls := calls + [SetBusinessTypeCall(t)];
    }

    /** `setLOB`: replaces the LOB only. */
    method SetLob(lob: string)
      modifies this
      ensures selectedLOB == lob
      ensures selectedState == old(selectedState) && businessType == old(businessType)
      ensures calls == old(calls) + [SetLobCall(lob)]
    {
      selectedLOB := lob;
      calls := calls + [SetLobCall(lob)];
    }
  }
}
