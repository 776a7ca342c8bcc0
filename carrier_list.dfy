/** The filter engine of the results list (src/components/CarrierList.tsx):
    carriers matching the selected state and LOB, split into an "Online
    Applications" bucket and a "Contact Required" bucket, plus the text
    shown in place of a missing logo. */
module CarrierList {
  import opened MarketTypes
  import opened Seqs

  /** `carrier.states.includes(state) && carrier.lines.includes(lob)`. */
  predicate Matches(c: Carrier, state: string, lob: string)
  {
    state in c.states && lob in c.lines
  }

  predicate IsOnline(c: Carrier)
  {
    "Online" in c.tags
  }

  /** Tagged "Offline" and not "Online": the online tag takes precedence. */
  predicate IsOfflineOnly(c: Carrier)
  {
    "Offline" in c.tags && "Online" !in c.tags
  }

  /** `availableCarriers`: the carriers offering `lob` in `state`, in dataset order. */
  function Available(carriers: seq<Carrier>, state: string, lob: string): seq<Carrier>
  {
    Filter(carriers, c => Matches(c, state, lob))
  }

  /** `onlineCarriers`. */
  function Online(available: seq<Carrier>): seq<Carrier>
  {
    Filter(available, IsOnline)
  }

  /** `offlineCarriers`. */
  function OfflineOnly(available: seq<Carrier>): seq<Carrier>
  {
    Filter(available, IsOfflineOnly)
  }

  /** The three lists the component computes once it renders. */
  datatype Buckets = Buckets(available: seq<Carrier>, online: seq<Carrier>, offline: seq<Carrier>)

  /** The component: nothing (null) unless state, business type and LOB are all
      non-empty; otherwise the three lists. The business type only guards. */
  function CarrierResults(carriers: seq<Carrier>, state: string, businessType: string, lob: string)
    : (r: Option<Buckets>)
    ensures r.None? <==> state == "" || businessType == "" || lob == ""
  {
    if state == "" || businessType == "" || lob == "" then None
    else
      var available := Available(carriers, state, lob);
      Some(Buckets(available, Online(available), OfflineOnly(available)))
  }

  /** What the filter returns: exactly the matching carriers, in dataset order; the
      online bucket is exactly the available carriers tagged "Online"; the other bucket
      exactly those tagged "Offline" and not "Online"; the two buckets are disjoint and
      ordered as the dataset; together they hold at most the available carriers, and
      all of them when every available carrier has one of the two tags. */
  lemma FilterContract(carriers: seq<Carrier>, state: string, businessType: string, lob: string)
    requires state != "" && businessType != "" && lob != ""
    ensures var b := CarrierResults(carriers, state, businessType, lob).value;
      && (forall c :: c in b.available <==> c in carriers && state in c.states && lob in c.lines)
      && IsSubseq(b.available, carriers)
      && (forall c :: c in b.online <==> c in b.available && "Online" in c.tags)
      && (forall c :: c in b.offline <==> c in b.available && "Offline" in c.tags && "Online" !in c.tags)
      && IsSubseq(b.online, b.available) && IsSubseq(b.offline, b.available)
      && (forall c :: !(c in b.online && c in b.offline))
      && |b.online| + |b.offline| <= |b.available|
      && ((forall c :: c in b.available ==> "Online" in c.tags || "Offline" in c.tags) ==>
            |b.online| + |b.offline| == |b.available|)
  {
    var available := Available(carriers, state, lob);
    FilterIsSubseq(carriers, c => Matches(c, state, lob));
    FilterIsSubseq(available, IsOnline);
    FilterIsSubseq(available, IsOfflineOnly);
    DisjointFilterSizes(available, IsOnline, IsOfflineOnly);
  }

  /** Where one carrier of the list ends up: available exactly when it matches, and
      then online or contact-required according to its tags. */
  lemma Placement(carriers: seq<Carrier>, state: string, businessType: string, lob: string, c: Carrier)
    requires state != "" && businessType != "" && lob != ""
    requires c in carriers
    ensures var b := CarrierResults(carriers, state, businessType, lob).value;
      && (c in b.available <==> Matches(c, state, lob))
      && (c in b.online <==> Matches(c, state, lob) && IsOnline(c))
      && (c in b.offline <==> Matches(c, state, lob) && IsOfflineOnly(c))
  {
  }

  /** A carrier tagged both "Online" and "Offline" that matches lands in the online
      bucket and never in the other. */
  lemma BothTagsListedOnline(carriers: seq<Carrier>, state: string, businessType: string, lob: string, c: Carrier)
    requires state != "" && businessType != "" && lob != ""
    requires c in carriers && Matches(c, state, lob)
    requires "Online" in c.tags && "Offline" in c.tags
    ensures c in CarrierResults(carriers, state, businessType, lob).value.online
    ensures c !in CarrierResults(carriers, state, businessType, lob).value.offline
  {
    FilterContract(carriers, state, businessType, lob);
  }

  /** When exactly one carrier offers a line, the available list for that line
      holds that carrier where it operates and nothing else. */
  lemma SoleOffering(carriers: seq<Carrier>, state: string, businessType: string, lob: string, k: nat)
    requires state != "" && businessType != "" && lob != ""
    requires k < |carriers| && lob in carriers[k].lines
    requires forall i :: 0 <= i < |carriers| && lob in carriers[i].lines ==> i == k
    ensures forall c ::
      (c in CarrierResults(carriers, state, businessType, lob).value.available) <==> (c == carriers[k] && state in carriers[k].states)
  {
    forall c ensures (c in CarrierResults(carriers, state, businessType, lob).value.available)
      <==> (c == carriers[k] && state in carriers[k].states)
    {
      if c in carriers {
        var i :| 0 <= i < |carriers| && carriers[i] == c;
      }
    }
  }

  /** The business type plays no part in filtering: two complete selections that
      differ only in it give the same lists. */
  lemma BusinessTypeIrrelevant(carriers: seq<Carrier>, state: string, lob: string, t1: string, t2: string)
    requires t1 != "" && t2 != ""
    ensures CarrierResults(carriers, state, t1, lob) == CarrierResults(carriers, state, t2, lob)
  {
  }

  /** Which result sections are rendered. */
  datatype Sections = Sections(onlineSection: bool, contactSection: bool, noCarriersPanel: bool)

  function ResultSections(b: Buckets): Sections
  {
    Sections(|b.online| > 0, |b.offline| > 0, |b.available| == 0)
  }

  /** The "No carriers available" panel appears exactly when no carrier matches, and
      then neither bucket section is shown; when every matching carrier carries a
      channel tag, the panel appears exactly when both sections are hidden. */
  lemma NoCarriersPanel(carriers: seq<Carrier>, state: string, businessType: string, lob: string)
    requires state != "" && businessType != "" && lob != ""
    ensures var b := CarrierResults(carriers, state, businessType, lob).value;
      && (ResultSections(b).noCarriersPanel <==> forall c :: c in carriers ==> !Matches(c, state, lob))
      && (ResultSections(b).noCarriersPanel ==> !ResultSections(b).onlineSection && !ResultSections(b).contactSection)
      && ((forall c :: c in b.available ==> "Online" in c.tags || "Offline" in c.tags) ==>
            (ResultSections(b).noCarriersPanel <==> !ResultSections(b).onlineSection && !ResultSections(b).contactSection))
  {
    FilterContract(carriers, state, businessType, lob);
    var b := CarrierResults(carriers, state, businessType, lob).value;
    if b.available != [] {
      assert b.available[0] in b.available;
    }
  }

  /** JavaScript `s.split(sep)` for a one-character separator: the pieces between
      separators, empty pieces included; never an empty list. */
  function SplitOn(s: string, sep: char): (words: seq<string>)
    ensures |words| >= 1
    ensures forall i :: 0 <= i < |words| ==> sep !in words[i]
  {
    if s == [] then [""]
    else
      var rest := SplitOn(s[1..], sep);
      if s[0] == sep then [""] + rest
      else [[s[0]] + rest[0]] + rest[1..]
  }

  /** `words.join(sep)`: the words with one separator between neighbours. */
  function Join(words: seq<string>, sep: char): (s: string)
    ensures |words| == 1 ==> s == words[0]
  {
    if words == [] then ""
    else if |words| == 1 then words[0]
    else words[0] + [sep] + Join(words[1..], sep)
  }

  /** Splitting loses nothing: joining the pieces with the separator gives the input back. */
  lemma {:induction false} JoinSplitOn(s: string, sep: char)
    ensures Join(SplitOn(s, sep), sep) == s
  {
    if s != [] {
      var rest := SplitOn(s[1..], sep);
      JoinSplitOn(s[1..], sep);
      if s[0] == sep {
        assert SplitOn(s, sep) == [""] + rest;
        assert Join(SplitOn(s, sep), sep) == [sep] + Join(rest, sep);
      } else if |rest| == 1 {
        assert SplitOn(s, sep) == [[s[0]] + rest[0]];
      } else {
        var words := SplitOn(s, sep);
        assert words[1..] == rest[1..];
        assert Join(words, sep) == [s[0]] + (rest[0] + [sep] + Join(rest[1..], sep));
      }
      assert s == [s[0]] + s[1..];
    }
  }

  /** `words.map(word => word[0]).join('')`: an empty word gives `undefined`, which
      `join` writes as nothing. */
  function FirstChars(words: seq<string>): string
  {
    if words == [] then ""
    else (if words[0] == "" then "" else [words[0][0]]) + FirstChars(words[1..])
  }

  /** The initials shown for a carrier without a logo: `.slice(0, 3)` of the above. */
  function Initials(name: string): string
  {
    var all := FirstChars(SplitOn(name, ' '));
    if |all| <= 3 then all else all[..3]
  }

  /** Reference definition: the characters of `s` that start a word, a word being a
      run of non-space characters; `afterSpace` says whether the text before `s`
      ends at a word boundary. */
  function WordStarts(s: string, afterSpace: bool): (r: string)
    ensures ' ' !in r
  {
    if s == [] then ""
    else if s[0] == ' ' then WordStarts(s[1..], true)
    else if afterSpace then [s[0]] + WordStarts(s[1..], false)
    else WordStarts(s[1..], false)
  }

  lemma {:induction false} FirstCharsOfSplit(s: string)
    ensures FirstChars(SplitOn(s, ' ')) == WordStarts(s, true)
    ensures FirstChars(SplitOn(s, ' ')[1..]) == WordStarts(s, false)
  {
    if s != [] {
      FirstCharsOfSplit(s[1..]);
      var rest := SplitOn(s[1..], ' ');
      if s[0] == ' ' {
        assert SplitOn(s, ' ')[1..] == rest;
      } else {
        assert SplitOn(s, ' ')[1..] == rest[1..];
      }
    }
  }

  /** The initials are at most three characters: the first characters of the name's
      space-separated words, in order, no space among them. */
  lemma InitialsAreWordStarts(name: string)
    ensures |Initials(name)| <= 3
    ensures Initials(name) <= WordStarts(name, true)
    ensures |Initials(name)| == if |WordStarts(name, true)| < 3 then |WordStarts(name, true)| else 3
    ensures ' ' !in Initials(name)
  {
    FirstCharsOfSplit(name);
  }
}
