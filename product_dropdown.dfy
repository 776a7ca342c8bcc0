/** The product dropdown of the URL-driven page (src/components/ProductDropdown.tsx):
    the product list for the business type read from the query, an open/closed
    flag changed by the toggle, a selection and a mousedown outside, and the
    marking of the selected product. */
module ProductDropdown {
  import opened MarketTypes
  import opened QueryParams
  import opened MarketPage

  /** `businessType ? lobs[businessType] : []` as written. The page passes the `type`
      parameter unchecked, so any string can arrive; a key the catalog lacks reads
      as `undefined`, which is `None` here. */
  function Products(catalog: LobCatalog, businessType: string): (r: Option<seq<string>>)
    ensures businessType == "" ==> r == Some([])
    ensures forall t :: t in catalog && BusinessTypeName(t) == businessType ==> r == Some(catalog[t])
    ensures r.None? <==> businessType != "" && forall t :: t in catalog ==> BusinessTypeName(t) != businessType
  {
    if businessType == "" then Some([])
    else
      match ParseBusinessType(businessType)
      case None => None
      case Some(t) => if t in catalog then Some(catalog[t]) else None
  }

  /** `if (!businessType) return null`: the dropdown renders for any non-empty type. */
  function Renders(businessType: string): (shown: bool)
    ensures shown <==> businessType != ""
  {
    businessType != ""
  }

  /** The guard never hides a dropdown the page shows: the page mounts it only with a
      business type in the query. Where the guard does hide it, the product list is
      empty, so nothing is lost. */
  lemma RenderGuard(catalog: LobCatalog, p: Params)
    ensures VisiblePanels(ReadSelection(p)).productDropdown ==> Renders(ReadSelection(p).businessType)
    ensures !Renders(ReadSelection(p).businessType) ==> Products(catalog, ReadSelection(p).businessType) == Some([])
  {
  }

  /** With a complete catalog, a query whose `type` is neither business type still
      shows the dropdown on the page while its product list is undefined; opening
      it evaluates `products.map` on `undefined`. */
  lemma UnknownTypeLeavesNoProducts(catalog: LobCatalog)
    requires Personal in catalog && Commercial in catalog
    ensures var sel := ReadSelection([Param("state", "CA"), Param("type", "Foo")]);
      && sel == Selection("CA", "Foo", "")
      && VisiblePanels(sel).productDropdown
      && Renders(sel.businessType)
      && Products(catalog, sel.businessType).None?
  {
    var p := [Param("state", "CA"), Param("type", "Foo")];
    assert Get(p, "state") == Some("CA");
    assert Get(p, "type") == Some("Foo");
    assert !Has(p, "lob");
  }

  /** The list the dropdown can always map over: the catalog's products for a known
      business type, and no products for anything else. */
  function ProductsOrEmpty(catalog: LobCatalog, businessType: string): (r: seq<string>)
    ensures forall t :: t in catalog && BusinessTypeName(t) == businessType ==> r == catalog[t]
    ensures (forall t :: t in catalog ==> BusinessTypeName(t) != businessType) ==> r == []
  {
    match Products(catalog, businessType)
    case None => []
    case Some(list) => list
  }

  /** The corrected list agrees with the written one wherever that one is defined,
      and it is defined for every business type the page can pass. */
  lemma ProductsOrEmptyAgrees(catalog: LobCatalog, businessType: string)
    ensures Products(catalog, businessType).Some? ==> ProductsOrEmpty(catalog, businessType) == Products(catalog, businessType).value
    ensures Products(catalog, businessType).None? ==> ProductsOrEmpty(catalog, businessType) == []
  {
  }

  /** The text on the toggle button: the selected LOB, or the prompt when none is selected. */
  function ButtonLabel(selectedLOB: string): (text: string)
    ensures text != ""
    ensures selectedLOB != "" ==> text == selectedLOB
  {
    if selectedLOB != "" then selectedLOB else "Select a product..."
  }

  /** For each product, whether it is marked as the selected one. */
  function Marked(products: seq<string>, selectedLOB: string): (marks: seq<bool>)
    ensures |marks| == |products|
    ensures forall i :: 0 <= i < |products| ==> (marks[i] <==> products[i] == selectedLOB)
  {
    if products == [] then []
    else [products[0] == selectedLOB] + Marked(products[1..], selectedLOB)
  }

  /** The buttons of the open dropdown, over the corrected list: each product in
      catalog order with its selected mark. */
  function OpenItems(catalog: LobCatalog, businessType: string, selectedLOB: string): (items: seq<(string, bool)>)
    ensures |items| == |ProductsOrEmpty(catalog, businessType)|
    ensures forall i :: 0 <= i < |items| ==>
              items[i].0 == ProductsOrEmpty(catalog, businessType)[i] && (items[i].1 <==> items[i].0 == selectedLOB)
  {
    var products := ProductsOrEmpty(catalog, businessType);
    var marks := Marked(products, selectedLOB);
    seq(|products|, i requires 0 <= i < |products| => (products[i], marks[i]))
  }

  function CountMarked(marks: seq<bool>): nat
  {
    if marks == [] then 0 else (if marks[0] then 1 else 0) + CountMarked(marks[1..])
  }

  predicate DistinctProducts(products: seq<string>)
  {
    forall i, j :: 0 <= i < j < |products| ==> products[i] != products[j]
  }

  /** Among distinct products at most one is marked, and exactly one is marked when
      the selected LOB is one of them; none when it is not. */
  lemma {:induction false} MarkedAtMostOne(products: seq<string>, selectedLOB: string)
    requires DistinctProducts(products)
    ensures CountMarked(Marked(products, selectedLOB)) == (if selectedLOB in products then 1 else 0)
  {
    if products != [] {
      var rest := products[1..];
      assert DistinctProducts(rest) by {
        forall i, j | 0 <= i < j < |rest| ensures rest[i] != rest[j] {
          assert rest[i] == products[i + 1] && rest[j] == products[j + 1];
        }
      }
      MarkedAtMostOne(rest, selectedLOB);
      assert Marked(products, selectedLOB)[1..] == Marked(rest, selectedLOB);
      if products[0] == selectedLOB {
        assert selectedLOB !in rest by {
          forall j | 0 <= j < |rest| ensures rest[j] != selectedLOB {
            assert rest[j] == products[j + 1];
          }
        }
      }
      assert selectedLOB in products <==> products[0] == selectedLOB || selectedLOB in rest;
    }
  }

  /** The dropdown's local state: the open flag and the products handed to
      `onLOBSelect`, in order. */
  class Dropdown {
    var isOpen: bool
    ghost var selected: seq<string>

    /** `useState(false)`: closed, nothing selected yet. */
    constructor ()
      ensures !isOpen && selected == []
    {
      isOpen := false;
      selected := [];
    }

    /** The toggle button: `setIsOpen(!isOpen)`. */
    method Toggle()
      modifies this
      ensures isOpen == !old(isOpen)
      ensures selected == old(selected)
    {
      isOpen := !isOpen;
    }

    /** `handleSelect`: one `onLOBSelect(product)` call, then closed. */
    method HandleSelect(product: string)
      modifies this
      ensures !isOpen
      ensures selected == old(selected) + [product]
    {
      selected := selected + [product];
      isOpen := false;
    }

    /** The document mousedown listener. The ref is attached only while the dropdown
        renders; a press outside the attached element closes it, any other press
        leaves it as it was. */
    method MouseDown(businessType: string, insideDropdown: bool)
      modifies this
      ensures Renders(businessType) && !insideDropdown ==> !isOpen
      ensures !(Renders(businessType) && !insideDropdown) ==> isOpen == old(isOpen)
      ensures selected == old(selected)
    {
      var attached := Renders(businessType);
      if attached && !insideDropdown {
        isOpen := false;
      }
    }
  }
}
