/** The two helpers of src/lib/helpers.ts: `slugify`, a chain of string
    normalisations, and `groupByTag`, which builds a dictionary of carriers
    keyed by their first tag. */
module Helpers {
  import opened MarketTypes
  import opened Seqs

  // ---------------------------------------------------------------- slugify

  /** The characters JavaScript's `\s` and `String.prototype.trim` treat as white
      space: tab, line feed, vertical tab, form feed, carriage return, space, no-break
      space, ogham space mark, the spaces U+2000 to U+200A, line and paragraph
      separators, narrow no-break space, medium mathematical space, ideographic
      space and the byte order mark. */
  predicate IsSpace(c: char)
  {
    var n := c as int;
    || (0x09 <= n <= 0x0D) || n == 0x20 || n == 0xA0 || n == 0x1680
    || (0x2000 <= n <= 0x200A) || n == 0x2028 || n == 0x2029 || n == 0x202F
    || n == 0x205F || n == 0x3000 || n == 0xFEFF
  }

  /** `\w`: ASCII letters, digits and underscore. */
  predicate IsWordChar(c: char)
  {
    ('a' <= c <= 'z') || ('A' <= c <= 'Z') || ('0' <= c <= '9') || c == '_'
  }

  /** The characters a slug is made of: lower-case ASCII letters, digits, `_` and `-`. */
  predicate IsSlugChar(c: char)
  {
    ('a' <= c <= 'z') || ('0' <= c <= '9') || c == '_' || c == '-'
  }

  predicate IsUpper(c: char)
  {
    'A' <= c <= 'Z'
  }

  predicate NoUpper(s: string)
  {
    forall i :: 0 <= i < |s| ==> !IsUpper(s[i])
  }

  predicate NoSpace(s: string)
  {
    forall i :: 0 <= i < |s| ==> !IsSpace(s[i])
  }

  predicate AllSlugChars(s: string)
  {
    forall i :: 0 <= i < |s| ==> IsSlugChar(s[i])
  }

  /** The ASCII case mapping: an upper-case letter moves 32 code points up to its
      lower-case letter, every other character is left as it is. */
  function LowerChar(c: char): (d: char)
    ensures !IsUpper(d)
    ensures IsUpper(c) ==> 'a' <= d <= 'z' && d as int - c as int == 'a' as int - 'A' as int
    ensures !IsUpper(c) ==> d == c
  {
    if IsUpper(c) then (c as int + 32) as char else c
  }

  /** `toLowerCase`, for the ASCII letters: the case mapping applied at every position. */
  function Lower(s: string): (r: string)
    ensures |r| == |s|
    ensures forall i :: 0 <= i < |s| ==> r[i] == LowerChar(s[i])
    ensures NoUpper(r)
  {
    if s == [] then "" else [LowerChar(s[0])] + Lower(s[1..])
  }

  predicate AllSpace(s: string)
  {
    forall i :: 0 <= i < |s| ==> IsSpace(s[i])
  }

  /** `trimStart`: the longest all-white-space prefix removed. */
  function TrimStart(s: string): (r: string)
    ensures r == [] || !IsSpace(r[0])
    ensures |r| <= |s| && r == s[|s| - |r|..]
    ensures forall i :: 0 <= i < |s| - |r| ==> IsSpace(s[i])
  {
    if s != [] && IsSpace(s[0]) then
      var r := TrimStart(s[1..]);
      assert forall i :: 1 <= i < |s| ==> s[i] == s[1..][i - 1];
      r
    else s
  }

  /** `trimEnd`: the longest all-white-space suffix removed. */
  function TrimEnd(s: string): (r: string)
    ensures r == [] || !IsSpace(r[|r| - 1])
    ensures |r| <= |s| && r == s[..|r|]
    ensures forall i :: |r| <= i < |s| ==> IsSpace(s[i])
  {
    if s != [] && IsSpace(s[|s| - 1]) then
      var r := TrimEnd(s[..|s| - 1]);
      assert forall i :: 0 <= i < |s| - 1 ==> s[i] == s[..|s| - 1][i];
      r
    else s
  }

  /** `trim`: white space removed from both ends. */
  function Trim(s: string): (r: string)
    ensures r == [] || (!IsSpace(r[0]) && !IsSpace(r[|r| - 1]))
  {
    TrimEnd(TrimStart(s))
  }

  /** A suffix `t` of `s` after white space, and a prefix `r` of `t` before white
      space, cut `s` into white space, `r` and white space. */
  lemma {:induction false} ThreePieces(s: string, t: string, r: string)
    requires |t| <= |s| && t == s[|s| - |t|..] && forall i :: 0 <= i < |s| - |t| ==> IsSpace(s[i])
    requires |r| <= |t| && r == t[..|r|] && forall i :: |r| <= i < |t| ==> IsSpace(t[i])
    ensures s == s[..|s| - |t|] + r + t[|r|..]
    ensures AllSpace(s[..|s| - |t|]) && AllSpace(t[|r|..])
  {
    assert s == s[..|s| - |t|] + t;
    assert t == r + t[|r|..];
  }

  /** The input is the trimmed text `r` with white space only before and after it,
      where `t` is the input after `trimStart`; with the ends of `Trim` not white
      space, nothing else was removed. */
  lemma {:induction false} TrimRemovesOnlyEndSpace(s: string, t: string, r: string)
    requires t == TrimStart(s) && r == Trim(s)
    ensures |t| <= |s| && |r| <= |t|
    ensures s == s[..|s| - |t|] + r + t[|r|..]
    ensures AllSpace(s[..|s| - |t|]) && AllSpace(t[|r|..])
  {
    TrimCutsTrimStart(s);
    ThreePieces(s, t, r);
  }

  /** `Trim` is `TrimStart` followed by a cut of trailing white space. */
  lemma {:induction false} TrimCutsTrimStart(s: string)
    ensures var t := TrimStart(s);
      && |Trim(s)| <= |t| && Trim(s) == t[..|Trim(s)|]
      && forall i :: |Trim(s)| <= i < |t| ==> IsSpace(t[i])
  {
  }

  /** Trimming only removes characters, so it keeps text free of upper case. */
  lemma TrimNoUpper(s: string)
    requires NoUpper(s)
    ensures NoUpper(Trim(s))
  {
    var t := TrimStart(s);
    assert NoUpper(t);
  }

  /** `replace(/\s+/g, '-')`: every maximal run of white space becomes one `-`.
      `inRun` says whether the text before `s` ended inside a run already replaced. */
  function Collapse(s: string, inRun: bool): (r: string)
  {
    if s == [] then ""
    else if IsSpace(s[0]) then (if inRun then "" else "-") + Collapse(s[1..], true)
    else [s[0]] + Collapse(s[1..], false)
  }

  function CollapseSpaces(s: string): string
  {
    Collapse(s, false)
  }

  /** After the run replacement no white space is left, and no upper case appears. */
  lemma {:induction false} CollapseClean(s: string, inRun: bool)
    requires NoUpper(s)
    ensures NoSpace(Collapse(s, inRun)) && NoUpper(Collapse(s, inRun))
  {
    if s != [] {
      CollapseClean(s[1..], IsSpace(s[0]));
    }
  }

  /** The characters `replace(/[^\w\-]+/g, '')` keeps: `\w` and `-`. */
  predicate IsKept(c: char)
  {
    IsWordChar(c) || c == '-'
  }

  /** `replace(/[^\w\-]+/g, '')`: every character that is neither `\w` nor `-` is removed. */
  function KeepWordChars(s: string): (r: string)
    ensures forall i :: 0 <= i < |r| ==> IsKept(r[i])
  {
    if s == [] then ""
    else if IsKept(s[0]) then [s[0]] + KeepWordChars(s[1..])
    else KeepWordChars(s[1..])
  }

  /** The removal keeps every `\w` and `-` character of the input, each occurrence,
      in order, and nothing else. */
  lemma {:induction false} KeepWordCharsIsFilter(s: string)
    ensures KeepWordChars(s) == Filter(s, IsKept)
  {
    if s != [] {
      KeepWordCharsIsFilter(s[1..]);
      assert s == [s[0]] + s[1..];
      FilterCons(s[0], s[1..], IsKept);
    }
  }

  lemma {:induction false} KeepWordCharsNoUpper(s: string)
    requires NoUpper(s)
    ensures NoUpper(KeepWordChars(s))
  {
    if s != [] {
      KeepWordCharsNoUpper(s[1..]);
    }
  }

  /** `slugify`. */
  function Slugify(text: string): string
  {
    KeepWordChars(CollapseSpaces(Trim(Lower(text))))
  }

  /** A slug holds only lower-case letters, digits, `_` and `-`, so no white space. */
  lemma SlugChars(text: string)
    ensures AllSlugChars(Slugify(text))
    ensures NoSpace(Slugify(text))
  {
    var t := Trim(Lower(text));
    TrimNoUpper(Lower(text));
    CollapseClean(t, false);
    KeepWordCharsNoUpper(CollapseSpaces(t));
  }

  lemma {:induction false} LowerKeepsSlug(s: string)
    requires AllSlugChars(s)
    ensures Lower(s) == s
  {
    if s != [] {
      LowerKeepsSlug(s[1..]);
    }
  }

  lemma {:induction false} CollapseKeepsSpaceFree(s: string)
    requires NoSpace(s)
    ensures Collapse(s, false) == s
  {
    if s != [] {
      CollapseKeepsSpaceFree(s[1..]);
    }
  }

  lemma {:induction false} KeepWordCharsKeepsSlug(s: string)
    requires AllSlugChars(s)
    ensures KeepWordChars(s) == s
  {
    if s != [] {
      KeepWordCharsKeepsSlug(s[1..]);
    }
  }

  /** `slugify` is idempotent. */
  lemma SlugifyIdempotent(text: string)
    ensures Slugify(Slugify(text)) == Slugify(text)
  {
    var s := Slugify(text);
    SlugChars(text);
    LowerKeepsSlug(s);
    assert Trim(s) == s;
    CollapseKeepsSpaceFree(s);
    KeepWordCharsKeepsSlug(s);
  }

  /** The replacement works piece by piece: the second piece starts in the state the
      first one ends in. */
  lemma {:induction false} CollapseAppend(a: string, t: string, inRun: bool)
    ensures Collapse(a + t, inRun)
            == Collapse(a, inRun) + Collapse(t, if a == [] then inRun else IsSpace(a[|a| - 1]))
  {
    if a != [] {
      var rest, next := a[1..], IsSpace(a[0]);
      var head := if IsSpace(a[0]) then (if inRun then "" else "-") else [a[0]];
      assert (a + t)[0] == a[0] && (a + t)[1..] == rest + t;
      assert Collapse(a + t, inRun) == head + Collapse(rest + t, next);
      assert Collapse(a, inRun) == head + Collapse(rest, next);
      CollapseAppend(rest, t, next);
      if rest != [] {
        assert rest[|rest| - 1] == a[|a| - 1];
      }
      AppendAssoc(head, Collapse(rest, next), Collapse(t, IsSpace(a[|a| - 1])));
    } else {
      assert a + t == t;
    }
  }

  /** Inside a run, further white space adds nothing. */
  lemma {:induction false} CollapseInsideRun(w: string)
    requires forall i :: 0 <= i < |w| ==> IsSpace(w[i])
    ensures Collapse(w, true) == ""
  {
    if w != [] {
      CollapseInsideRun(w[1..]);
    }
  }

  /** A maximal run `w` of white space inside the text becomes exactly one `-`, and
      the text on either side is replaced on its own. */
  lemma CollapseRun(a: string, w: string, b: string)
    requires |w| > 0 && forall i :: 0 <= i < |w| ==> IsSpace(w[i])
    requires a == [] || !IsSpace(a[|a| - 1])
    requires b == [] || !IsSpace(b[0])
    ensures CollapseSpaces(a + w + b) == CollapseSpaces(a) + "-" + CollapseSpaces(b)
  {
    CollapseAppend(a, w + b, false);
    CollapseAppend(w, b, false);
    CollapseInsideRun(w[1..]);
    assert Collapse(w, false) == "-" + Collapse(w[1..], true);
    assert Collapse(b, true) == Collapse(b, false);
    assert a + w + b == a + (w + b);
  }

  /** Existing hyphens are kept as they are, never merged: text without white space
      is left unchanged by the run replacement. */
  lemma HyphensKept(s: string)
    requires NoSpace(s)
    ensures CollapseSpaces(s) == s
    ensures CollapseSpaces("a--b") == "a--b"
  {
    CollapseKeepsSpaceFree(s);
    CollapseKeepsSpaceFree("a--b");
  }

  // ------------------------------------------------------------- groupByTag

  /** `carrier.tags[0] || 'Other'`: the first tag, or "Other" when there is none or it is "". */
  function TagKey(c: Carrier): (k: string)
    ensures k != ""
    ensures |c.tags| > 0 && c.tags[0] != "" ==> k == c.tags[0]
    ensures (|c.tags| == 0 || c.tags[0] == "") ==> k == "Other"
  {
    if |c.tags| == 0 || c.tags[0] == "" then "Other" else c.tags[0]
  }

  /** The reference definition of one group: the carriers whose key is `k`, in order. */
  function GroupOf(carriers: seq<Carrier>, k: string): seq<Carrier>
  {
    Filter(carriers, c => TagKey(c) == k)
  }

  /** The total size of the groups listed in `keys`. */
  function SizeSum(groups: map<string, seq<Carrier>>, keys: seq<string>): nat
    requires forall k :: k in keys ==> k in groups
  {
    if keys == [] then 0
    else SizeSum(groups, keys[..|keys| - 1]) + |groups[keys[|keys| - 1]]|
  }

  predicate Distinct(keys: seq<string>)
  {
    forall i, j :: 0 <= i < j < |keys| ==> keys[i] != keys[j]
  }

  lemma {:induction false} SizeSumFrame(groups: map<string, seq<Carrier>>, keys: seq<string>, k: string, g: seq<Carrier>)
    requires forall x :: x in keys ==> x in groups
    requires k !in keys
    ensures SizeSum(groups[k := g], keys) == SizeSum(groups, keys)
  {
    if keys != [] {
      SizeSumFrame(groups, keys[..|keys| - 1], k, g);
    }
  }

  lemma {:induction false} SizeSumGrow(groups: map<string, seq<Carrier>>, keys: seq<string>, k: string, c: Carrier)
    requires forall x :: x in keys ==> x in groups
    requires Distinct(keys) && k in keys
    ensures SizeSum(groups[k := groups[k] + [c]], keys) == SizeSum(groups, keys) + 1
  {
    var n := |keys| - 1;
    var init := keys[..n];
    if keys[n] == k {
      assert k !in init;
      SizeSumFrame(groups, init, k, groups[k] + [c]);
    } else {
      assert k in init;
      SizeSumGrow(groups, init, k, c);
    }
  }

  /** What the dictionary holds after the carriers of `prefix` have been visited. */
  ghost predicate GroupsOf(prefix: seq<Carrier>, groups: map<string, seq<Carrier>>, order: seq<string>)
  {
    && GroupsMatch(prefix, groups)
    && (forall c :: c in prefix ==> TagKey(c) in groups)
    && KeyOrder(groups, order)
    && SizeSum(groups, order) == |prefix|
  }

  /** Every group is the non-empty reference group of its key. */
  ghost predicate GroupsMatch(prefix: seq<Carrier>, groups: map<string, seq<Carrier>>)
  {
    forall k :: k in groups ==> groups[k] == GroupOf(prefix, k) && groups[k] != []
  }

  /** `order` lists each key of `groups` once. */
  ghost predicate KeyOrder(groups: map<string, seq<Carrier>>, order: seq<string>)
  {
    Distinct(order) && forall k :: k in order <==> k in groups
  }

  lemma GroupOfSnoc(prefix: seq<Carrier>, c: Carrier, k: string)
    ensures GroupOf(prefix + [c], k)
            == if TagKey(c) == k then GroupOf(prefix, k) + [c] else GroupOf(prefix, k)
  {
    FilterSnoc(prefix, c, x => TagKey(x) == k);
  }

  /** A `forEach` step for a carrier whose key already has a group: the carrier is
      pushed onto it. */
  lemma GroupStepExisting(prefix: seq<Carrier>, c: Carrier, groups: map<string, seq<Carrier>>, order: seq<string>)
    requires GroupsOf(prefix, groups, order) && TagKey(c) in groups
    ensures GroupsOf(prefix + [c], groups[TagKey(c) := groups[TagKey(c)] + [c]], order)
  {
    var tag := TagKey(c);
    var groups' := groups[tag := groups[tag] + [c]];
    forall k | k in groups'
      ensures groups'[k] == GroupOf(prefix + [c], k) && groups'[k] != []
    {
      GroupOfSnoc(prefix, c, k);
    }
    SizeSumGrow(groups, order, tag, c);
  }

  /** A `forEach` step for a carrier whose key has no group yet: the group is created
      with the carrier in it, and the key is appended to the key order. */
  lemma GroupStepNew(prefix: seq<Carrier>, c: Carrier, groups: map<string, seq<Carrier>>, order: seq<string>)
    requires GroupsOf(prefix, groups, order) && TagKey(c) !in groups
    ensures GroupsOf(prefix + [c], groups[TagKey(c) := [c]], order + [TagKey(c)])
  {
    var tag := TagKey(c);
    var groups' := groups[tag := [c]];
    var order' := order + [tag];
    NewGroupMatches(prefix, c, groups);
    SizeSumNewKey(groups, order, tag, c);
    assert KeyOrder(groups', order');
  }

  lemma NewGroupMatches(prefix: seq<Carrier>, c: Carrier, groups: map<string, seq<Carrier>>)
    requires GroupsMatch(prefix, groups) && TagKey(c) !in groups
    requires forall x :: x in prefix ==> TagKey(x) in groups
    ensures GroupsMatch(prefix + [c], groups[TagKey(c) := [c]])
  {
    var tag := TagKey(c);
    var groups' := groups[tag := [c]];
    FilterNone(prefix, x => TagKey(x) == tag);
    forall k | k in groups'
      ensures groups'[k] == GroupOf(prefix + [c], k) && groups'[k] != []
    {
      GroupOfSnoc(prefix, c, k);
    }
  }

  lemma SizeSumNewKey(groups: map<string, seq<Carrier>>, order: seq<string>, tag: string, c: Carrier)
    requires forall x :: x in order ==> x in groups
    requires Distinct(order) && tag !in order
    ensures Distinct(order + [tag])
    ensures SizeSum(groups[tag := [c]], order + [tag]) == SizeSum(groups, order) + 1
  {
    var order' := order + [tag];
    SizeSumFrame(groups, order, tag, [c]);
    assert order'[..|order'| - 1] == order;
  }

  /** The position of the first carrier whose key is `k`, or `|carriers|` when none has it. */
  function FirstKeyIndex(carriers: seq<Carrier>, k: string): (n: nat)
    ensures n <= |carriers|
    ensures n < |carriers| ==> TagKey(carriers[n]) == k
    ensures forall m :: 0 <= m < n ==> TagKey(carriers[m]) != k
  {
    if carriers == [] then 0
    else if TagKey(carriers[0]) == k then 0
    else
      var n := FirstKeyIndex(carriers[1..], k);
      assert forall m :: 1 <= m <= n ==> carriers[m] == carriers[1..][m - 1];
      n + 1
  }

  /** Appending a carrier leaves every first position in place; a key met for the
      first time gets the new carrier's position. */
  lemma {:induction false} FirstKeyIndexSnoc(prefix: seq<Carrier>, c: Carrier, k: string)
    ensures FirstKeyIndex(prefix, k) < |prefix| ==> FirstKeyIndex(prefix + [c], k) == FirstKeyIndex(prefix, k)
    ensures FirstKeyIndex(prefix, k) == |prefix| && TagKey(c) == k ==> FirstKeyIndex(prefix + [c], k) == |prefix|
  {
    if prefix != [] && TagKey(prefix[0]) != k {
      FirstKeyIndexSnoc(prefix[1..], c, k);
      assert (prefix + [c])[1..] == prefix[1..] + [c];
    }
  }

  /** A key no carrier of `prefix` has is first met past its end. */
  lemma {:induction false} FirstKeyIndexAbsent(prefix: seq<Carrier>, k: string)
    requires forall x :: x in prefix ==> TagKey(x) != k
    ensures FirstKeyIndex(prefix, k) == |prefix|
  {
    if prefix != [] {
      assert prefix[0] in prefix;
      FirstKeyIndexAbsent(prefix[1..], k);
    }
  }

  /** `order` lists the keys met in `prefix` by the position where each is first met. */
  ghost predicate FirstSeenOrder(prefix: seq<Carrier>, order: seq<string>)
  {
    && (forall k :: k in order ==> FirstKeyIndex(prefix, k) < |prefix|)
    && (forall i, j :: 0 <= i < j < |order| ==> FirstKeyIndex(prefix, order[i]) < FirstKeyIndex(prefix, order[j]))
  }

  /** A carrier whose key already has a group keeps the key order. */
  lemma OrderStepExisting(prefix: seq<Carrier>, c: Carrier, order: seq<string>)
    requires FirstSeenOrder(prefix, order)
    ensures FirstSeenOrder(prefix + [c], order)
  {
    forall k | k in order
      ensures FirstKeyIndex(prefix + [c], k) == FirstKeyIndex(prefix, k)
    {
      FirstKeyIndexSnoc(prefix, c, k);
    }
  }

  /** A carrier whose key is met for the first time puts its key last. */
  lemma OrderStepNew(prefix: seq<Carrier>, c: Carrier, order: seq<string>)
    requires FirstSeenOrder(prefix, order)
    requires TagKey(c) !in order && forall x :: x in prefix ==> TagKey(x) != TagKey(c)
    ensures FirstSeenOrder(prefix + [c], order + [TagKey(c)])
  {
    var tag := TagKey(c);
    var next := prefix + [c];
    var order' := order + [tag];
    FirstKeyIndexAbsent(prefix, tag);
    FirstKeyIndexSnoc(prefix, c, tag);
    OrderStepExisting(prefix, c, order);
    forall i, j | 0 <= i < j < |order'|
      ensures FirstKeyIndex(next, order'[i]) < FirstKeyIndex(next, order'[j])
    {
      assert order'[i] == order[i] && order[i] in order;
      if j < |order| {
        assert order'[j] == order[j];
      }
    }
  }

  /** What the walk holds after the carriers of `prefix`: the groups and the order in
      which their keys were first met. */
  ghost predicate Visited(prefix: seq<Carrier>, groups: map<string, seq<Carrier>>, order: seq<string>)
  {
    GroupsOf(prefix, groups, order) && FirstSeenOrder(prefix, order)
  }

  /** Before the walk: no groups and no keys. */
  lemma VisitStart(prefix: seq<Carrier>)
    requires prefix == []
    ensures Visited(prefix, map[], [])
  {
  }

  /** The carriers up to position `i` inclusive. */
  lemma TakeOneMore(carriers: seq<Carrier>, i: nat)
    requires i < |carriers|
    ensures carriers[..i + 1] == carriers[..i] + [carriers[i]]
  {
  }

  /** One `forEach` step, at position `i`, for a key met for the first time. */
  lemma VisitNew(carriers: seq<Carrier>, i: nat, groups: map<string, seq<Carrier>>, order: seq<string>)
    requires i < |carriers| && Visited(carriers[..i], groups, order) && TagKey(carriers[i]) !in groups
    ensures Visited(carriers[..i + 1], groups[TagKey(carriers[i]) := [carriers[i]]], order + [TagKey(carriers[i])])
  {
    var c := carriers[i];
    TakeOneMore(carriers, i);
    OrderStepNew(carriers[..i], c, order);
    GroupStepNew(carriers[..i], c, groups, order);
  }

  /** One `forEach` step, at position `i`, for a key that already has a group. */
  lemma VisitExisting(carriers: seq<Carrier>, i: nat, groups: map<string, seq<Carrier>>, order: seq<string>)
    requires i < |carriers| && Visited(carriers[..i], groups, order) && TagKey(carriers[i]) in groups
    ensures Visited(carriers[..i + 1], groups[TagKey(carriers[i]) := groups[TagKey(carriers[i])] + [carriers[i]]], order)
  {
    var c := carriers[i];
    TakeOneMore(carriers, i);
    OrderStepExisting(carriers[..i], c, order);
    GroupStepExisting(carriers[..i], c, groups, order);
  }

  /** Once every carrier has been visited, the dictionary holds each carrier in the
      group of its key and in no other. */
  lemma {:induction false} GroupsOfAll(carriers: seq<Carrier>, groups: map<string, seq<Carrier>>, order: seq<string>)
    requires Visited(carriers, groups, order)
    ensures forall k :: k in groups ==> groups[k] == GroupOf(carriers, k)
    ensures forall k :: k in groups ==> groups[k] != []
    ensures forall c :: c in carriers ==> TagKey(c) in groups && c in groups[TagKey(c)]
    ensures forall c, k :: k in groups && c in groups[k] ==> k == TagKey(c)
    ensures Distinct(order) && (forall k :: k in order <==> k in groups)
    ensures forall i, j :: 0 <= i < j < |order| ==> FirstKeyIndex(carriers, order[i]) < FirstKeyIndex(carriers, order[j])
    ensures SizeSum(groups, order) == |carriers|
  {
    forall c | c in carriers
      ensures TagKey(c) in groups && c in groups[TagKey(c)]
    {
      assert c in GroupOf(carriers, TagKey(c));
    }
  }

  /** `groupByTag`: walks the carriers in order, creating a group the first time a key
      is met and appending each carrier to its group. `order` is the order in which
      the keys were created: by the position of each key's first carrier. */
  method GroupByTag(carriers: seq<Carrier>) returns (groups: map<string, seq<Carrier>>, order: seq<string>)
    ensures forall k :: k in groups ==> groups[k] == GroupOf(carriers, k)
    ensures forall k :: k in groups ==> groups[k] != []
    ensures forall c :: c in carriers ==> TagKey(c) in groups && c in groups[TagKey(c)]
    ensures forall c, k :: k in groups && c in groups[k] ==> k == TagKey(c)
    ensures Distinct(order) && (forall k :: k in order <==> k in groups)
    ensures forall i, j :: 0 <= i < j < |order| ==> FirstKeyIndex(carriers, order[i]) < FirstKeyIndex(carriers, order[j])
    ensures SizeSum(groups, order) == |carriers|
  {
    groups := map[];
    order := [];
    var i := 0;
    VisitStart(carriers[..0]);
    while i < |carriers|
      invariant 0 <= i <= |carriers|
      invariant Visited(carriers[..i], groups, order)
    {
      var c := carriers[i];
      var tag := TagKey(c);
      if tag !in groups {
        VisitNew(carriers, i, groups, order);
        groups := groups[tag := [c]];
        order := order + [tag];
      } else {
        VisitExisting(carriers, i, groups, order);
        groups := groups[tag := groups[tag] + [c]];
      }
      i := i + 1;
    }
    assert carriers[..i] == carriers;
    GroupsOfAll(carriers, groups, order);
  }
}
