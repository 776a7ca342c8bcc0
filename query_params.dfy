/** Query parameters after the `URLSearchParams` interface of the WHATWG URL
    Standard (section 6.2): an ordered list of name/value pairs. `get` returns
    the value of the first pair with the name, `set` overwrites the first such
    pair and drops the others (or appends a pair when there is none), `delete`
    drops every pair with the name. Names and values are opaque strings. */
module QueryParams {
  import opened MarketTypes
  import opened Seqs

  datatype Param = Param(name: string, value: string)

  type Params = seq<Param>

  /** True when some pair of `p` carries `name`. */
  predicate Has(p: Params, name: string)
  {
    p != [] && (p[0].name == name || Has(p[1..], name))
  }

  /** `URLSearchParams.get`: the value of the first pair named `name`, or null. */
  function Get(p: Params, name: string): (r: Option<string>)
    ensures r.None? <==> !Has(p, name)
    ensures r.Some? ==> Param(name, r.value) in p
  {
    if p == [] then None
    else if p[0].name == name then Some(p[0].value)
    else Get(p[1..], name)
  }

  /** `Get` returns the value of the first pair that carries the name. */
  lemma {:induction false} GetFindsFirst(p: Params, name: string, i: nat)
    requires i < |p| && p[i].name == name
    requires forall j :: 0 <= j < i ==> p[j].name != name
    ensures Get(p, name) == Some(p[i].value)
  {
    if i > 0 {
      GetFindsFirst(p[1..], name, i - 1);
    }
  }

  /** The pairs `delete(name)` keeps: those with another name. */
  function OtherName(name: string): Param -> bool
  {
    (q: Param) => q.name != name
  }

  /** `URLSearchParams.delete(name)`: every pair named `name` is removed, the rest
      keep their order. */
  function Delete(p: Params, name: string): (r: Params)
    ensures !Has(r, name)
    ensures forall q: Param :: q in r <==> q in p && q.name != name
    ensures forall k :: k != name ==> Get(r, k) == Get(p, k)
    ensures |r| <= |p|
  {
    if p == [] then []
    else if p[0].name == name then Delete(p[1..], name)
    else [p[0]] + Delete(p[1..], name)
  }

  /** `delete` keeps exactly the pairs with another name, each occurrence, in order. */
  lemma {:induction false} DeleteIsFilter(p: Params, name: string)
    ensures Delete(p, name) == Filter(p, OtherName(name))
  {
    if p != [] {
      DeleteIsFilter(p[1..], name);
      assert p == [p[0]] + p[1..];
      FilterCons(p[0], p[1..], OtherName(name));
    }
  }

  /** The position of the first pair named `name`. */
  function FirstIndex(p: Params, name: string): (i: nat)
    requires Has(p, name)
    ensures i < |p| && p[i].name == name
    ensures forall j :: 0 <= j < i ==> p[j].name != name
  {
    if p[0].name == name then 0
    else
      var i := FirstIndex(p[1..], name);
      assert forall j :: 1 <= j <= i ==> p[j] == p[1..][j - 1];
      i + 1
  }

  /** What `set(name, value)` promises of its result `r`: `get` of the name is the
      new value, every other name keeps its `get` and its pairs, no pairs are added
      for a name already present, and a new name is appended. */
  ghost predicate SetSpec(p: Params, name: string, value: string, r: Params)
  {
    && Get(r, name) == Some(value)
    && (forall k :: k != name ==> Get(r, k) == Get(p, k))
    && (forall q: Param :: q.name != name ==> (q in r <==> q in p))
    && (Has(p, name) ==> |r| <= |p|)
    && (!Has(p, name) ==> r == p + [Param(name, value)])
  }

  /** The first pair carries the name: it takes the value, the rest loses the name. */
  lemma {:induction false} SetOnHit(p: Params, name: string, value: string)
    requires p != [] && p[0].name == name
    ensures SetSpec(p, name, value, [Param(name, value)] + Delete(p[1..], name))
  {
    SetOnHitGets(p, name, value);
    SetOnHitPairs(p, name, value);
  }

  lemma {:induction false} SetOnHitGets(p: Params, name: string, value: string)
    requires p != [] && p[0].name == name
    ensures var r := [Param(name, value)] + Delete(p[1..], name);
      forall k :: k != name ==> Get(r, k) == Get(p, k)
  {
    var d := Delete(p[1..], name);
    var r := [Param(name, value)] + d;
    assert r[1..] == d;
    forall k | k != name
      ensures Get(r, k) == Get(p, k)
    {
      assert Get(r, k) == Get(d, k) == Get(p[1..], k);
    }
  }

  lemma {:induction false} SetOnHitPairs(p: Params, name: string, value: string)
    requires p != [] && p[0].name == name
    ensures var r := [Param(name, value)] + Delete(p[1..], name);
      forall q: Param :: q.name != name ==> (q in r <==> q in p)
  {
    var d := Delete(p[1..], name);
    var r := [Param(name, value)] + d;
    assert p == [p[0]] + p[1..];
    forall q: Param | q.name != name
      ensures q in r <==> q in p
    {
      assert q in r <==> q in d;
      assert q in p <==> q in p[1..];
    }
  }

  /** The first pair carries another name: it is kept in front of the result for the rest. */
  lemma {:induction false} SetOnSkip(p: Params, name: string, value: string, rest: Params)
    requires p != [] && p[0].name != name
    requires SetSpec(p[1..], name, value, rest)
    ensures SetSpec(p, name, value, [p[0]] + rest)
  {
    SetOnSkipGets(p, name, value, rest);
    SetOnSkipPairs(p, name, rest);
    if !Has(p, name) {
      assert p == [p[0]] + p[1..];
      ConsSnoc(p[0], p[1..], Param(name, value));
    }
  }

  lemma {:induction false} SetOnSkipGets(p: Params, name: string, value: string, rest: Params)
    requires p != [] && p[0].name != name
    requires Get(rest, name) == Some(value)
    requires forall k :: k != name ==> Get(rest, k) == Get(p[1..], k)
    ensures Get([p[0]] + rest, name) == Some(value)
    ensures forall k :: k != name ==> Get([p[0]] + rest, k) == Get(p, k)
  {
    var r := [p[0]] + rest;
    assert r[1..] == rest;
  }

  lemma {:induction false} SetOnSkipPairs(p: Params, name: string, rest: Params)
    requires p != []
    requires forall q: Param :: q.name != name ==> (q in rest <==> q in p[1..])
    ensures forall q: Param :: q.name != name ==> (q in [p[0]] + rest <==> q in p)
  {
    assert p == [p[0]] + p[1..];
  }

  /** `URLSearchParams.set(name, value)`: the first pair named `name` takes the
      value and keeps its place, later pairs with that name are removed; with no
      such pair, a new one is appended. */
  function Set(p: Params, name: string, value: string): (r: Params)
    ensures Get(r, name) == Some(value)
    ensures forall k :: k != name ==> Get(r, k) == Get(p, k)
    ensures forall q: Param :: q.name != name ==> (q in r <==> q in p)
    ensures Has(p, name) ==> |r| <= |p|
    ensures !Has(p, name) ==> r == p + [Param(name, value)]
  {
    if p == [] then [Param(name, value)]
    else if p[0].name == name then
      SetOnHit(p, name, value);
      [Param(name, value)] + Delete(p[1..], name)
    else
      var rest := Set(p[1..], name, value);
      SetOnSkip(p, name, value, rest);
      [p[0]] + rest
  }

  /** Past a first pair with another name, `set` keeps that pair and works on the rest. */
  lemma SetSkips(p: Params, name: string, value: string)
    requires p != [] && p[0].name != name
    ensures Set(p, name, value) == [p[0]] + Set(p[1..], name, value)
  {
  }

  /** Past a first pair with another name, the first position of the name moves by one. */
  lemma FirstIndexSkips(p: Params, name: string)
    requires Has(p, name) && p[0].name != name
    ensures Has(p[1..], name) && FirstIndex(p, name) == FirstIndex(p[1..], name) + 1
  {
  }

  /** The slices of `p` one position past those of its tail. */
  lemma SlicesOfTail(p: Params, k: nat)
    requires k < |p| - 1
    ensures p[..k + 1] == [p[0]] + p[1..][..k]
    ensures p[k + 2..] == p[1..][k + 1..]
  {
  }

  /** `p` with the pair at position `i` replaced by `pair` and every later pair named
      `pair.name` deleted. */
  function ReplaceAt(p: Params, i: nat, pair: Param): (r: Params)
    requires i < |p|
  {
    p[..i] + [pair] + Delete(p[i + 1..], pair.name)
  }

  /** For a name already present, `set` is the pairs before its first occurrence,
      the new pair in that place, and the rest with the name deleted. */
  lemma {:induction false} SetReplacesFirst(p: Params, name: string, value: string)
    requires Has(p, name)
    ensures Set(p, name, value) == ReplaceAt(p, FirstIndex(p, name), Param(name, value))
  {
    var pair := Param(name, value);
    if p[0].name == name {
      assert FirstIndex(p, name) == 0;
      assert p[..0] + [pair] == [pair];
    } else {
      var q := p[1..];
      FirstIndexSkips(p, name);
      SetReplacesFirst(q, name, value);
      SetSkips(p, name, value);
      ReplaceAtTail(p, FirstIndex(q, name), pair);
    }
  }

  /** Replacing in the tail of `p` is replacing one position further in `p`. */
  lemma ReplaceAtTail(p: Params, k: nat, pair: Param)
    requires k < |p| - 1
    ensures [p[0]] + ReplaceAt(p[1..], k, pair) == ReplaceAt(p, k + 1, pair)
  {
    SlicesOfTail(p, k);
  }

  /** `Has` holds exactly when some position carries the name. */
  lemma {:induction false} HasAt(p: Params, name: string)
    ensures Has(p, name) <==> exists k :: 0 <= k < |p| && p[k].name == name
  {
    if p != [] {
      HasAt(p[1..], name);
      if Has(p[1..], name) {
        var k :| 0 <= k < |p[1..]| && p[1..][k].name == name;
        assert p[k + 1].name == name;
      }
      if exists k :: 0 <= k < |p| && p[k].name == name {
        var k :| 0 <= k < |p| && p[k].name == name;
        if k > 0 {
          assert p[1..][k - 1].name == name;
        }
      }
    }
  }

  /** In `a + [x] + b`, where neither `a` nor `b` carries the name, only `x` can. */
  lemma OnlyMiddleNamed(a: Params, x: Param, b: Params, name: string, j: nat)
    requires forall k :: 0 <= k < |a| ==> a[k].name != name
    requires forall q :: q in b ==> q.name != name
    requires j < |a + [x] + b| && (a + [x] + b)[j].name == name
    ensures j == |a|
  {
  }

  /** After `set` exactly one pair carries the name: the one at the first position
      that carried it before, or the new last pair. */
  lemma SetLeavesOnePair(p: Params, name: string, value: string, j: nat)
    requires j < |Set(p, name, value)| && Set(p, name, value)[j].name == name
    ensures Has(p, name) ==> j == FirstIndex(p, name)
    ensures !Has(p, name) ==> j == |p|
  {
    var pair := Param(name, value);
    if Has(p, name) {
      SetReplacesFirst(p, name, value);
      var i := FirstIndex(p, name);
      OnlyMiddleNamed(p[..i], pair, Delete(p[i + 1..], name), name, j);
    } else {
      HasAt(p, name);
      OnlyMiddleNamed(p, pair, [], name, j);
    }
  }

  /** The query string `name=value&name=value...` (percent-encoding is not modelled). */
  function Serialize(p: Params): (query: string)
    ensures query == "" <==> p == []
  {
    if p == [] then ""
    else if |p| == 1 then p[0].name + "=" + p[0].value
    else p[0].name + "=" + p[0].value + "&" + Serialize(p[1..])
  }
}
