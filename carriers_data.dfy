/** The carrier dataset (src/data/carriers.ts): twenty carriers in dataset order,
    and what the filter engine makes of them for a few concrete selections. */
module CarriersData {
  import opened MarketTypes
  import opened CarrierList

  /** `carriers`, entry for entry and in order. */
  const Carriers: seq<Carrier> := [
    Carrier("national-general", "National General", ["CA", "TX", "AZ"], ["Personal Auto", "Homeowners"], ["Online"], Some("/icons/placeholder.png")),
    Carrier("safeco", "Safeco Insurance", ["CA", "TX", "AZ"], ["Personal Auto", "Homeowners"], ["Online"], Some("/icons/placeholder.png")),
    Carrier("assurance-america", "Assurance America", ["CA", "TX", "AZ"], ["Personal Auto"], ["Online"], Some("/icons/placeholder.png")),
    Carrier("nationwide", "Nationwide", ["CA", "TX", "AZ"], ["Personal Auto", "Homeowners"], ["Online"], Some("/icons/placeholder.png")),
    Carrier("commonwealth-casualty", "Commonwealth Casualty", ["CA", "TX", "AZ"], ["Personal Auto"], ["Online"], Some("/icons/placeholder.png")),
    Carrier("elephant", "Elephant", ["CA", "TX", "AZ"], ["Personal Auto"], ["Online"], Some("/icons/placeholder.png")),
    Carrier("thirtyland", "Thirtyland", ["CA", "TX", "AZ"], ["Personal Auto"], ["Online"], Some("/icons/placeholder.png")),
    Carrier("clearcover", "Clearcover", ["CA", "TX", "AZ"], ["Personal Auto"], ["Online"], Some("/icons/placeholder.png")),
    Carrier("abc-insurance", "ABC Insurance", ["CA", "TX", "AZ"], ["Personal Auto", "Renters"], ["Online"], Some("/icons/placeholder.png")),
    Carrier("xyz-insurance", "XYZ Insurance", ["CA", "TX"], ["Homeowners"], ["Online"], Some("/icons/placeholder.png")),
    Carrier("123-insurance", "123 Insurance", ["AZ"], ["Personal Auto"], ["Online"], Some("/icons/placeholder.png")),
    Carrier("gainsco", "Gainsco", ["TX", "AZ"], ["Personal Auto"], ["Offline"], Some("/icons/placeholder.png")),
    Carrier("kemper-auto", "Kemper Auto", ["CA", "TX"], ["Personal Auto"], ["Offline"], Some("/icons/placeholder.png")),
    Carrier("farmers", "Farmers Insurance", ["CA", "AZ"], ["Homeowners", "Personal Auto"], ["Offline"], Some("/icons/placeholder.png")),
    Carrier("state-farm", "State Farm", ["CA", "TX", "AZ"], ["Personal Auto", "Homeowners", "Renters"], ["Online", "Offline"], Some("/icons/placeholder.png")),
    Carrier("geico", "GEICO", ["CA", "TX"], ["Personal Auto"], ["Online"], Some("/icons/placeholder.png")),
    Carrier("progressive", "Progressive", ["CA", "TX", "AZ"], ["Personal Auto", "Commercial Auto"], ["Online"], Some("/icons/placeholder.png")),
    Carrier("allstate", "Allstate", ["CA", "TX"], ["Personal Auto", "Homeowners"], ["Online", "Offline"], Some("/icons/placeholder.png")),
    Carrier("mercury", "Mercury Insurance", ["CA", "TX", "AZ"], ["Personal Auto", "Homeowners"], ["Online", "Offline"], Some("/icons/placeholder.png")),
    Carrier("travelers", "Travelers", ["CA", "TX"], ["Personal Auto", "Homeowners", "Renters"], ["Online", "Offline"], Some("/icons/placeholder.png"))
  ]

  /** The shape every entry has: at least one state, all among CA, TX and AZ; at
      least one line; at least one tag, all "Online" or "Offline". */
  predicate WellFormed(c: Carrier)
  {
    && |c.states| > 0 && |c.lines| > 0 && |c.tags| > 0
    && (forall k :: 0 <= k < |c.states| ==> c.states[k] == "CA" || c.states[k] == "TX" || c.states[k] == "AZ")
    && (forall k :: 0 <= k < |c.tags| ==> c.tags[k] == "Online" || c.tags[k] == "Offline")
  }

  /** Twenty well-formed entries. */
  lemma DatasetWellFormed()
    ensures |Carriers| == 20
    ensures forall i :: 0 <= i < |Carriers| ==> WellFormed(Carriers[i])
  {
  }

  /** No two entries share an id. */
  lemma IdsUnique()
    ensures forall i, j :: 0 <= i < j < |Carriers| ==> Carriers[i].id != Carriers[j].id
  {
    IdsUniqueFrom(0, 5);
    IdsUniqueFrom(5, 10);
    IdsUniqueFrom(10, 15);
    IdsUniqueFrom(15, 20);
  }

  /** The ids of the entries from `lo` up to `hi` differ from those of every later entry. */
  lemma IdsUniqueFrom(lo: nat, hi: nat)
    requires (lo, hi) in {(0, 5), (5, 10), (10, 15), (15, 20)}
    ensures forall i, j :: lo <= i < hi && i < j < |Carriers| ==> Carriers[i].id != Carriers[j].id
  {
  }

  /** Where entry `i` lands for a selection, in terms of its own fields. */
  lemma ListedAt(i: nat, state: string, businessType: string, lob: string)
    requires i < |Carriers| && state != "" && businessType != "" && lob != ""
    ensures var b := CarrierResults(Carriers, state, businessType, lob).value;
      && (Carriers[i] in b.available <==> Matches(Carriers[i], state, lob))
      && (Carriers[i] in b.online <==> Matches(Carriers[i], state, lob) && IsOnline(Carriers[i]))
      && (Carriers[i] in b.offline <==> Matches(Carriers[i], state, lob) && IsOfflineOnly(Carriers[i]))
  {
    Placement(Carriers, state, businessType, lob, Carriers[i]);
  }

  /** What the filter engine reads from an entry with the given states, lines and tags. */
  lemma EntryFacts(c: Carrier, states: seq<string>, lines: seq<string>, tags: seq<string>, state: string, lob: string)
    requires c.states == states && c.lines == lines && c.tags == tags
    ensures Matches(c, state, lob) <==> state in states && lob in lines
    ensures IsOnline(c) <==> "Online" in tags
    ensures IsOfflineOnly(c) <==> "Offline" in tags && "Online" !in tags
  {
  }

  /** `123-insurance` is listed online exactly for Arizona and Personal Auto, and
      never under contact required. */
  lemma OneTwoThreeInsurance(state: string, businessType: string, lob: string)
    requires state != "" && businessType != "" && lob != ""
    ensures Carriers[10].id == "123-insurance"
    ensures var b := CarrierResults(Carriers, state, businessType, lob).value;
      && (Carriers[10] in b.online <==> state == "AZ" && lob == "Personal Auto")
      && Carriers[10] !in b.offline
  {
    EntryFacts(Carriers[10], ["AZ"], ["Personal Auto"], ["Online"], state, lob);
    ListedAt(10, state, businessType, lob);
  }

  /** `gainsco` is listed under contact required exactly for Texas or Arizona and
      Personal Auto, and never online. */
  lemma Gainsco(state: string, businessType: string, lob: string)
    requires state != "" && businessType != "" && lob != ""
    ensures Carriers[11].id == "gainsco"
    ensures var b := CarrierResults(Carriers, state, businessType, lob).value;
      && (Carriers[11] in b.offline <==> (state == "TX" || state == "AZ") && lob == "Personal Auto")
      && Carriers[11] !in b.online
  {
    EntryFacts(Carriers[11], ["TX", "AZ"], ["Personal Auto"], ["Offline"], state, lob);
    ListedAt(11, state, businessType, lob);
  }

  /** Progressive is the only entry offering "Commercial Auto". */
  lemma OnlyProgressiveCommercialAuto()
    ensures Carriers[16].id == "progressive" && "Commercial Auto" in Carriers[16].lines
    ensures forall i :: 0 <= i < |Carriers| && "Commercial Auto" in Carriers[i].lines ==> i == 16
  {
  }

  /** The entries tagged both "Online" and "Offline" are exactly state-farm,
      allstate, mercury and travelers. */
  lemma BothTaggedIds()
    ensures forall i :: 0 <= i < |Carriers| ==>
      (("Online" in Carriers[i].tags && "Offline" in Carriers[i].tags)
         <==> Carriers[i].id in {"state-farm", "allstate", "mercury", "travelers"})
  {
  }

  /** For any state, the available list for "Commercial Auto" is Progressive where
      it operates, and no other carrier. */
  lemma CommercialAutoIsProgressive(state: string, businessType: string)
    requires state != "" && businessType != ""
    ensures forall c ::
      (c in CarrierResults(Carriers, state, businessType, "Commercial Auto").value.available) <==> (c == Carriers[16] && state in Carriers[16].states)
  {
    OnlyProgressiveCommercialAuto();
    SoleOffering(Carriers, state, businessType, "Commercial Auto", 16);
  }

  /** Whatever the selection, none of the four carriers tagged both ways is listed
      under contact required. */
  lemma BothTaggedNeverContactRequired(state: string, businessType: string, lob: string)
    requires state != "" && businessType != "" && lob != ""
    ensures forall i :: 0 <= i < |Carriers| && Carriers[i].id in {"state-farm", "allstate", "mercury", "travelers"} ==>
      Carriers[i] !in CarrierResults(Carriers, state, businessType, lob).value.offline
  {
    BothTaggedIds();
    FilterContract(Carriers, state, businessType, lob);
  }
}
