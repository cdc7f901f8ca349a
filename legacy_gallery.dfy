/** The older `ProductGallery` (src.js). It differs from the current one in
    its filter rule (no "out-of-stock" branch), its cards (no out-of-stock
    label or new tag), its eight-entry category table, and its modal, which
    fills fixed slots of the page and keeps at most one price element. */
module LegacyGallery {
  import opened Catalog
  import Gallery

  // ---------------------------------------------------------------------
  // Filter and search

  /** "all" passes everything, "featured" the featured products, and every
      other value, "out-of-stock" included, is compared with the category. */
  predicate MatchesFilter(p: Product, filter: string) {
    filter == "all" || (if filter == "featured" then p.featured else p.category == filter)
  }

  predicate Shows(p: Product, filter: string, term: string) {
    MatchesFilter(p, filter) && MatchesSearch(p, term)
  }

  function Visible(ps: seq<Product>, filter: string, term: string): seq<Product> {
    Select(ps, (p: Product) => Shows(p, filter, term))
  }

  /** The visible list is the catalog with some products left out, in
      catalog order. */
  lemma VisibleIsSubsequence(ps: seq<Product>, filter: string, term: string)
    ensures IsSubsequence(Visible(ps, filter, term), ps)
  {
    SelectIsSubsequence(ps, (p: Product) => Shows(p, filter, term));
  }

  /** A product is visible exactly when it is in the catalog and passes both
      the filter and the search. */
  lemma VisibleMembership(ps: seq<Product>, filter: string, term: string, p: Product)
    ensures p in Visible(ps, filter, term) <==>
            p in ps && MatchesFilter(p, filter) && MatchesSearch(p, term)
  {
    SelectMembership(ps, (q: Product) => Shows(q, filter, term), p);
  }

  /** What each filter value lets through; "out-of-stock" is only a
      category name here. */
  lemma VisibleSound(ps: seq<Product>, filter: string, term: string, p: Product)
    requires p in Visible(ps, filter, term)
    ensures filter == "featured" ==> p.featured
    ensures filter !in {"all", "featured"} ==> p.category == filter
    ensures filter == "out-of-stock" ==> p.category == "out-of-stock"
    ensures MatchesSearch(p, term)
  {
    VisibleMembership(ps, filter, term, p);
  }

  /** With filter "all" and no search term the whole catalog is visible. */
  lemma VisibleUnfiltered(ps: seq<Product>)
    ensures Visible(ps, "all", "") == ps
  {
    SelectAll(ps, (p: Product) => Shows(p, "all", ""));
  }

  /** For every filter value except "out-of-stock" the two versions show
      the same products. */
  lemma AgreesWithCurrent(ps: seq<Product>, filter: string, term: string)
    requires filter != "out-of-stock"
    ensures Visible(ps, filter, term) == Gallery.Visible(ps, filter, term)
  {
    SelectAgree(ps, (p: Product) => Shows(p, filter, term),
                (p: Product) => Gallery.Shows(p, filter, term));
  }

  /** Under "out-of-stock" they differ: an out-of-stock etching product is
      shown by the current version and hidden by this one. */
  lemma OutOfStockFilterDiffers()
    ensures var p := Product(1, "PCB A", "", "", "etching", None, false, true, false, None);
      && Gallery.Visible([p], "out-of-stock", "") == [p]
      && Visible([p], "out-of-stock", "") == []
  {
    var p := Product(1, "PCB A", "", "", "etching", None, false, true, false, None);
    assert [p][..0] == [];
  }

  // ---------------------------------------------------------------------
  // Category labels

  /** The eight-entry category-to-label table of `formatCategory`. */
  const CategoryLabels: map<string, string> := map[
    "pcb-design" := "PCB Design",
    "etching" := "Etching",
    "fabrication" := "Fabrication",
    "laptop-repair" := "Laptop Repair",
    "mobile-repair" := "Mobile Repair",
    "electronic-components" := "Components",
    "electronics-gadgets" := "Gadgets",
    "diy-modules" := "DIY Modules"]

  function FormatCategory(category: string): string {
    if category in CategoryLabels then CategoryLabels[category] else category
  }

  /** The eight listed categories get their labels; any other category,
      "laptops" and "oraimo-products" among them, is shown as it is. */
  lemma FormatCategoryTable(category: string)
    ensures FormatCategory("pcb-design") == "PCB Design"
    ensures FormatCategory("etching") == "Etching"
    ensures FormatCategory("fabrication") == "Fabrication"
    ensures FormatCategory("laptop-repair") == "Laptop Repair"
    ensures FormatCategory("mobile-repair") == "Mobile Repair"
    ensures FormatCategory("electronic-components") == "Components"
    ensures FormatCategory("electronics-gadgets") == "Gadgets"
    ensures FormatCategory("diy-modules") == "DIY Modules"
    ensures FormatCategory("laptops") == "laptops"
    ensures FormatCategory("oraimo-products") == "oraimo-products"
    ensures category !in {"pcb-design", "etching", "fabrication", "laptop-repair",
                          "mobile-repair", "electronic-components", "electronics-gadgets",
                          "diy-modules"} ==>
            FormatCategory(category) == category
  {
  }

  /** The older table is the current one without its last two entries. */
  lemma LabelsAreCurrentRestricted(category: string)
    ensures FormatCategory(category) ==
            if category in {"oraimo-products", "laptops"} then category
            else Gallery.FormatCategory(category)
  {
  }

  // ---------------------------------------------------------------------
  // Rendering

  /** One gallery card: data attributes, image, texts, category label, and
      the optional featured badge and price tag. */
  datatype Card = Card(
    id: int,
    category: string,
    imageUrl: string,
    title: string,
    description: string,
    categoryLabel: string,
    featuredBadge: bool,
    priceTag: Option<string>)

  function CardOf(p: Product): Card {
    Card(p.id, p.category, p.imageUrl, p.title, p.description, FormatCategory(p.category),
         p.featured, if HasPrice(p) then Some(p.price.value) else None)
  }

  /** The placeholder exactly when nothing is visible, otherwise one card
      per visible product, in order, with the featured badge exactly for
      featured products and the price tag exactly for a truthy price. */
  function Render(visible: seq<Product>): (g: Grid<Card>)
    ensures g.NoResults? || g.Cards?
    ensures g.NoResults? <==> visible == []
    ensures visible != [] ==> g.Cards? && |g.items| == |visible|
    ensures g.Cards? ==> forall i :: 0 <= i < |visible| ==>
      && g.items[i].id == visible[i].id
      && g.items[i].category == visible[i].category
      && g.items[i].imageUrl == visible[i].imageUrl
      && g.items[i].title == visible[i].title
      && g.items[i].description == visible[i].description
      && g.items[i].categoryLabel == FormatCategory(visible[i].category)
      && g.items[i].featuredBadge == visible[i].featured
      && (g.items[i].priceTag.Some? <==> HasPrice(visible[i]))
      && (g.items[i].priceTag.Some? ==> visible[i].price == Some(g.items[i].priceTag.value))
  {
    if visible == [] then NoResults
    else Cards(seq(|visible|, i requires 0 <= i < |visible| => CardOf(visible[i])))
  }

  // ---------------------------------------------------------------------
  // The controller

  class ProductGallery {
    var products: seq<Product>
    var filteredProducts: seq<Product>
    var currentFilter: string
    var searchTerm: string
    var grid: Grid<Card>
    var countLabel: string
    var modalShown: bool
    var modalImageUrl: string
    var modalImageAlt: string
    var modalTitle: string
    var modalDescription: string
    var modalCategory: string
    /** The texts of the elements with id `modalPrice`, in document order. */
    var priceElements: seq<string>

    /** The visible list is drawn from the catalog in catalog order, and the
        page holds at most one price element. */
    ghost predicate Valid()
      reads this`products, this`filteredProducts, this`priceElements
    {
      IsSubsequence(filteredProducts, products) && |priceElements| <= 1
    }

    /** The state before the catalog arrives; the modal slots start empty. */
    constructor ()
      ensures Valid()
      ensures products == [] && filteredProducts == []
      ensures currentFilter == "all" && searchTerm == ""
      ensures grid == Blank && countLabel == ""
      ensures !modalShown && priceElements == []
    {
      products := [];
      filteredProducts := [];
      currentFilter := "all";
      searchTerm := "";
      grid := Blank;
      countLabel := "";
      modalShown := false;
      modalImageUrl := "";
      modalImageAlt := "";
      modalTitle := "";
      modalDescription := "";
      modalCategory := "";
      priceElements := [];
      SubsequenceOfItself<Product>([]);
    }

    /** The fetch resolving, as in the current version. */
    method Load(outcome: Option<seq<Product>>)
      requires Valid()
      modifies this`products, this`filteredProducts, this`grid, this`countLabel
      ensures Valid()
      ensures outcome.Some? ==>
        && products == outcome.value && filteredProducts == outcome.value
        && grid == Render(outcome.value)
        && countLabel == CountLabel(|outcome.value|)
      ensures outcome.None? ==>
        && products == old(products) && filteredProducts == old(filteredProducts)
        && grid == LoadError && countLabel == old(countLabel)
    {
      match outcome
      case Some(list) =>
        products := list;
        filteredProducts := list;
        SubsequenceOfItself(list);
        RenderGallery();
        UpdateProductCount();
      case None =>
        grid := LoadError;
    }

    /** Redraws the grid; as in the current version the count is left alone
        when nothing is visible. */
    method RenderGallery()
      modifies this`grid, this`countLabel
      ensures grid == Render(filteredProducts)
      ensures countLabel == if filteredProducts == [] then old(countLabel)
                            else CountLabel(|filteredProducts|)
    {
      if |filteredProducts| == 0 {
        grid := NoResults;
        return;
      }
      var visible := filteredProducts;
      grid := Cards(seq(|visible|, i requires 0 <= i < |visible| => CardOf(visible[i])));
      UpdateProductCount();
    }

    method UpdateProductCount()
      modifies this`countLabel
      ensures countLabel == CountLabel(|filteredProducts|)
    {
      countLabel := CountLabel(|filteredProducts|);
    }

    method FilterProducts()
      requires Valid()
      modifies this`filteredProducts, this`grid, this`countLabel
      ensures Valid()
      ensures filteredProducts == Visible(products, currentFilter, searchTerm)
      ensures grid == Render(filteredProducts)
      ensures countLabel == if filteredProducts == [] then old(countLabel)
                            else CountLabel(|filteredProducts|)
    {
      var kept: seq<Product> := [];
      var i := 0;
      while i < |products|
        invariant 0 <= i <= |products|
        invariant kept == Visible(products[..i], currentFilter, searchTerm)
      {
        var p := products[i];
        assert products[..i + 1][..i] == products[..i];
        if Shows(p, currentFilter, searchTerm) {
          kept := kept + [p];
        }
        i := i + 1;
      }
      assert products[..i] == products;
      filteredProducts := kept;
      VisibleIsSubsequence(products, currentFilter, searchTerm);
      RenderGallery();
    }

    /** A filter button click. */
    method SelectFilter(filter: string)
      requires Valid()
      modifies this`currentFilter, this`filteredProducts, this`grid, this`countLabel
      ensures Valid()
      ensures currentFilter == filter
      ensures filteredProducts == Visible(products, currentFilter, searchTerm)
      ensures grid == Render(filteredProducts)
      ensures countLabel == if filteredProducts == [] then old(countLabel)
                            else CountLabel(|filteredProducts|)
    {
      currentFilter := filter;
      FilterProducts();
    }

    /** An input event on the search box carrying its current `value`. */
    method InputSearch(value: string)
      requires Valid()
      modifies this`searchTerm, this`filteredProducts, this`grid, this`countLabel
      ensures Valid()
      ensures searchTerm == SearchTerm(value)
      ensures filteredProducts == Visible(products, currentFilter, searchTerm)
      ensures grid == Render(filteredProducts)
      ensures countLabel == if filteredProducts == [] then old(countLabel)
                            else CountLabel(|filteredProducts|)
    {
      searchTerm := SearchTerm(value);
      FilterProducts();
    }

    /** Shows a catalog product in the modal's slots. An id no product
        carries changes nothing. Otherwise the first `modalPrice` element, if
        any, is removed, a new one is inserted right after the description
        when the price is truthy, and the modal is shown; with at most one
        price element before, there is afterwards exactly one when the price
        is truthy and none otherwise. */
    method OpenModal(id: int)
      requires Valid()
      modifies this`modalShown, this`modalImageUrl, this`modalImageAlt, this`modalTitle,
               this`modalDescription, this`modalCategory, this`priceElements
      ensures Valid()
      ensures Find(products, id).None? ==>
        && modalShown == old(modalShown) && priceElements == old(priceElements)
        && modalTitle == old(modalTitle) && modalDescription == old(modalDescription)
        && modalImageUrl == old(modalImageUrl) && modalImageAlt == old(modalImageAlt)
        && modalCategory == old(modalCategory)
      ensures Find(products, id).Some? ==>
        var p := Find(products, id).value;
        && modalShown
        && modalImageUrl == p.imageUrl && modalImageAlt == p.description
        && modalTitle == p.title && modalDescription == p.description
        && modalCategory == FormatCategory(p.category)
        && priceElements == (if HasPrice(p) then [p.price.value] else [])
    {
      var found := Find(products, id);
      if found.None? {
        return;
      }
      var p := found.value;
      modalImageUrl := p.imageUrl;
      modalImageAlt := p.description;
      modalTitle := p.title;
      modalDescription := p.description;
      modalCategory := FormatCategory(p.category);
      if |priceElements| > 0 {
        priceElements := priceElements[1..];
      }
      if HasPrice(p) {
        priceElements := [p.price.value] + priceElements;
      }
      modalShown := true;
    }

    /** Hides the modal; its slots keep their contents. */
    method CloseProductModal()
      modifies this`modalShown
      ensures !modalShown
    {
      modalShown := false;
    }

    /** The modal's close control. */
    method PressCloseControl()
      modifies this`modalShown
      ensures !modalShown
    {
      CloseProductModal();
    }

    /** A click inside the modal element; only the backdrop itself closes. */
    method ClickModal(onBackdrop: bool)
      modifies this`modalShown
      ensures modalShown == (old(modalShown) && !onBackdrop)
    {
      if onBackdrop {
        CloseProductModal();
      }
    }

    /** A key press anywhere in the document; Escape closes. */
    method KeyDown(key: string)
      modifies this`modalShown
      ensures modalShown == (old(modalShown) && key != "Escape")
    {
      if key == "Escape" {
        CloseProductModal();
      }
    }
  }
}
