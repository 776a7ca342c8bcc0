/** The map component's decisions (src/components/USAMap.tsx): looking a code up
    in the state table, the licensed guard on clicks, the fill and cursor of each
    region, and the state code taken from a region's `US-` id. */
module UsaMap {
  import opened MarketTypes
  import opened MarketStore
  import opened Seqs

  /** `states.find(state => state.code === code)`: the first row with the code. */
  function GetStateByCode(table: seq<StateInfo>, code: string): (r: Option<StateInfo>)
    ensures r.None? <==> forall i :: 0 <= i < |table| ==> table[i].code != code
    ensures r.Some? ==> r.value in table && r.value.code == code
  {
    if table == [] then None
    else if table[0].code == code then Some(table[0])
    else
      var r := GetStateByCode(table[1..], code);
      assert forall i :: 1 <= i < |table| ==> table[i] == table[1..][i - 1];
      r
  }

  /** `find` returns the first matching row, so a duplicated code resolves to its first row. */
  lemma {:induction false} GetStateByCodeFirst(table: seq<StateInfo>, code: string, i: nat)
    requires i < |table| && table[i].code == code
    requires forall j :: 0 <= j < i ==> table[j].code != code
    ensures GetStateByCode(table, code) == Some(table[i])
  {
    if i > 0 {
      GetStateByCodeFirst(table[1..], code, i - 1);
    }
  }

  /** `state?.licensed`: the code names a row of the table and that row is licensed. */
  predicate IsLicensed(table: seq<StateInfo>, code: string)
  {
    var s := GetStateByCode(table, code);
    s.Some? && s.value.licensed
  }

  /** `handleStateClick`: a licensed code is written to the store with exactly one
      `setState` call; an unknown or unlicensed code leaves the store untouched. */
  method HandleStateClick(store: Store, table: seq<StateInfo>, code: string)
    modifies store
    ensures IsLicensed(table, code) ==>
              && store.selectedState == code
              && store.businessType == old(store.businessType)
              && store.selectedLOB == old(store.selectedLOB)
              && store.calls == old(store.calls) + [SetStateCall(code)]
    ensures !IsLicensed(table, code) ==> unchanged(store)
  {
    var state := GetStateByCode(table, code);
    if state.Some? && state.value.licensed {
      store.SetState(code);
    }
  }

  /** The inline style of a region. */
  datatype Style = Style(fill: string, cursor: string, opacity: Option<real>)

  const DisabledStyle: Style := Style("#e5e7eb", "not-allowed", Some(0.7))
  const SelectedStyle: Style := Style("#1e40af", "pointer", None)
  const AvailableStyle: Style := Style("#60a5fa", "pointer", None)

  /** `getStateStyle`: unknown and unlicensed regions are gray, not-allowed and at
      opacity 0.7, selected or not; a licensed region is dark blue when selected and
      light blue otherwise. The pointer cursor marks exactly the regions whose click
      updates the store. */
  function GetStateStyle(table: seq<StateInfo>, selectedState: string, code: string): (s: Style)
    ensures s.cursor == "pointer" <==> IsLicensed(table, code)
    ensures !IsLicensed(table, code) ==> s == DisabledStyle
    ensures IsLicensed(table, code) && selectedState == code ==> s.fill == "#1e40af"
    ensures IsLicensed(table, code) && selectedState != code ==> s.fill == "#60a5fa"
    ensures s.opacity.Some? <==> !IsLicensed(table, code)
  {
    var state := GetStateByCode(table, code);
    if !(state.Some? && state.value.licensed) then DisabledStyle
    else if selectedState == code then SelectedStyle
    else AvailableStyle
  }

  /** `String.prototype.indexOf` for a string pattern: the first position where `pat` occurs. */
  function IndexOf(s: string, pat: string): (r: Option<nat>)
    ensures r.Some? ==> r.value + |pat| <= |s| && s[r.value..r.value + |pat|] == pat
    ensures r.Some? ==> forall i :: 0 <= i < r.value ==> !(pat <= s[i..])
    ensures r.None? ==> forall i :: 0 <= i <= |s| ==> !(pat <= s[i..])
    decreases |s|
  {
    if pat <= s then Some(0)
    else if s == [] then None
    else
      match IndexOf(s[1..], pat)
      case None =>
        NotFoundStep(s, pat);
        None
      case Some(i) =>
        FoundStep(s, pat, i);
        Some(i + 1)
  }

  /** A pattern that starts neither at position 0 nor anywhere in the tail starts nowhere. */
  lemma {:induction false} NotFoundStep(s: string, pat: string)
    requires s != [] && !(pat <= s)
    requires forall i :: 0 <= i <= |s| - 1 ==> !(pat <= s[1..][i..])
    ensures forall i :: 0 <= i <= |s| ==> !(pat <= s[i..])
  {
    forall i | 1 <= i <= |s|
      ensures !(pat <= s[i..])
    {
      assert s[i..] == s[1..][i - 1..];
    }
  }

  /** An occurrence first found at `i` in the tail is first found at `i + 1` in `s`. */
  lemma {:induction false} FoundStep(s: string, pat: string, i: nat)
    requires s != [] && !(pat <= s)
    requires i + |pat| <= |s| - 1 && s[1..][i..i + |pat|] == pat
    requires forall j :: 0 <= j < i ==> !(pat <= s[1..][j..])
    ensures i + 1 + |pat| <= |s| && s[i + 1..i + 1 + |pat|] == pat
    ensures forall j :: 0 <= j < i + 1 ==> !(pat <= s[j..])
  {
    assert s[i + 1..i + 1 + |pat|] == s[1..][i..i + |pat|];
    forall j | 1 <= j < i + 1
      ensures !(pat <= s[j..])
    {
      assert s[j..] == s[1..][j - 1..];
    }
  }

  /** `s.replace(pat, rep)` with a string pattern: only the first occurrence is replaced. */
  function ReplaceFirst(s: string, pat: string, rep: string): string
  {
    match IndexOf(s, pat)
    case None => s
    case Some(i) => s[..i] + rep + s[i + |pat|..]
  }

  /** `stateId.replace('US-', '')`. */
  function ExtractStateCode(id: string): string
  {
    ReplaceFirst(id, "US-", "")
  }

  /** For an id that begins with `US-` the code is the id with that first `US-` removed. */
  lemma ExtractStripsPrefix(id: string)
    requires "US-" <= id
    ensures ExtractStateCode(id) == id[3..]
    ensures "US-" + ExtractStateCode(id) == id
  {
    assert IndexOf(id, "US-") == Some(0);
  }

  /** The codes of the regions that get a click handler: the `path[id^="US-"]`
      elements with a non-empty id, in document order. */
  function RegionCodes(ids: seq<string>): (codes: seq<string>)
  {
    var regions := Filter(ids, id => "US-" <= id && id != "");
    seq(|regions|, i requires 0 <= i < |regions| => ExtractStateCode(regions[i]))
  }

  /** Every region code is a region id without its `US-` prefix, in document order. */
  lemma RegionCodesStripPrefix(ids: seq<string>)
    ensures var regions := Filter(ids, id => "US-" <= id && id != "");
      && |RegionCodes(ids)| == |regions|
      && IsSubseq(regions, ids)
      && forall i :: 0 <= i < |regions| ==> "US-" + RegionCodes(ids)[i] == regions[i]
  {
    var regions := Filter(ids, id => "US-" <= id && id != "");
    FilterIsSubseq(ids, id => "US-" <= id && id != "");
    forall i | 0 <= i < |regions|
      ensures "US-" + RegionCodes(ids)[i] == regions[i]
    {
      assert regions[i] in regions;
      ExtractStripsPrefix(regions[i]);
    }
  }
}
