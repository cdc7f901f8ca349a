/** The current `ProductGallery` (script.js): a catalog loaded once, a
    filter and a search term that select the visible products, a grid of
    cards and a product count drawn from them, a static table of services,
    and one detail modal that shows either a product or a service. */
module Gallery {
  import opened Text
  import opened Catalog

  // ---------------------------------------------------------------------
  // Filter and search

  /** The filter-button predicate: "all", "featured", "out-of-stock", or
      any other value compared with the category. */
  predicate MatchesFilter(p: Product, filter: string) {
    if filter == "all" then true
    else if filter == "featured" then p.featured
    else if filter == "out-of-stock" then p.outOfStock
    else p.category == filter
  }

  /** A product is visible when it passes both the filter and the search. */
  predicate Shows(p: Product, filter: string, term: string) {
    MatchesFilter(p, filter) && MatchesSearch(p, term)
  }

  /** The visible products for a filter and a search term, in catalog order. */
  function Visible(ps: seq<Product>, filter: string, term: string): seq<Product> {
    Select(ps, (p: Product) => Shows(p, filter, term))
  }

  /** The visible list is the catalog with some products left out, in
      catalog order. */
  lemma VisibleIsSubsequence(ps: seq<Product>, filter: string, term: string)
    ensures IsSubsequence(Visible(ps, filter, term), ps)
  {
    SelectIsSubsequence(ps, (p: Product) => Shows(p, filter, term));
  }

  /** A product is visible exactly when it is in the catalog and passes both
      the filter and the search. */
  lemma VisibleMembership(ps: seq<Product>, filter: string, term: string, p: Product)
    ensures p in Visible(ps, filter, term) <==>
            p in ps && MatchesFilter(p, filter) && MatchesSearch(p, term)
  {
    SelectMembership(ps, (q: Product) => Shows(q, filter, term), p);
  }

  /** What each filter value lets through. */
  lemma VisibleSound(ps: seq<Product>, filter: string, term: string, p: Product)
    requires p in Visible(ps, filter, term)
    ensures filter == "featured" ==> p.featured
    ensures filter == "out-of-stock" ==> p.outOfStock
    ensures filter !in {"all", "featured", "out-of-stock"} ==> p.category == filter
    ensures MatchesSearch(p, term)
  {
    VisibleMembership(ps, filter, term, p);
  }

  /** With filter "all" and no search term the whole catalog is visible. */
  lemma VisibleUnfiltered(ps: seq<Product>)
    ensures Visible(ps, "all", "") == ps
  {
    SelectAll(ps, (p: Product) => Shows(p, "all", ""));
  }

  /** Filtering the visible list again with the same filter and term
      changes nothing. */
  lemma VisibleIdempotent(ps: seq<Product>, filter: string, term: string)
    ensures Visible(Visible(ps, filter, term), filter, term) == Visible(ps, filter, term)
  {
    SelectIdempotent(ps, (p: Product) => Shows(p, filter, term));
  }

  /** An empty search term leaves the filter alone to decide, and any term
      only removes products from what the filter alone shows. */
  lemma SearchOnlyNarrows(ps: seq<Product>, filter: string, term: string)
    ensures forall p :: p in Visible(ps, filter, "") <==> p in ps && MatchesFilter(p, filter)
    ensures Visible(Visible(ps, filter, ""), filter, term) == Visible(ps, filter, term)
  {
    var wide := (p: Product) => Shows(p, filter, "");
    var narrow := (p: Product) => Shows(p, filter, term);
    forall p ensures p in Visible(ps, filter, "") <==> p in ps && MatchesFilter(p, filter) {
      VisibleMembership(ps, filter, "", p);
    }
    SelectNarrower(ps, narrow, wide);
  }

  /** The two-product catalog of the scenarios below: a featured etching
      board and a fabrication board. */
  function ScenarioCatalog(): seq<Product> {
    [Product(1, "PCB A", "", "", "etching", None, true, false, false, None),
     Product(2, "PCB B", "", "", "fabrication", None, false, false, false, None)]
  }

  /** The visible part of a two-product catalog, spelled out. */
  lemma VisiblePair(a: Product, b: Product, filter: string, term: string)
    ensures Visible([a, b], filter, term) ==
            (if Shows(a, filter, term) then [a] else []) + (if Shows(b, filter, term) then [b] else [])
  {
    var keep := (p: Product) => Shows(p, filter, term);
    assert [a, b][..1] == [a];
    assert [a][..0] == [];
    assert Select([a], keep) == if Shows(a, filter, term) then [a] else [];
    assert Select([a, b], keep) == Select([a], keep) + if Shows(b, filter, term) then [b] else [];
  }

  /** The featured filter shows only the featured board. */
  lemma FeaturedScenario()
    ensures Visible(ScenarioCatalog(), "featured", "") == ScenarioCatalog()[..1]
  {
    var c := ScenarioCatalog();
    VisiblePair(c[0], c[1], "featured", "");
  }

  lemma SecondBoardMatches()
    ensures MatchesSearch(ScenarioCatalog()[1], "pcb b")
  {
    var r := Lower("PCB B");
    assert r == "pcb b" by {
      assert r[0] == 'p' && r[1] == 'c' && r[2] == 'b' && r[3] == ' ' && r[4] == 'b';
    }
    ContainsSameLength(r, "pcb b");
  }

  lemma TitleMisses()
    ensures !Contains(Lower("PCB A"), "pcb b")
  {
    var r := Lower("PCB A");
    assert r[4] == LowerChar('A');
    ContainsSameLength(r, "pcb b");
  }

  lemma CategoryMisses()
    ensures !Contains(Lower("etching"), "pcb b")
  {
    if Contains(Lower("etching"), "pcb b") {
      ContainsBounds(Lower("etching"), "pcb b");
      assert false;
    }
  }

  lemma FirstBoardMisses()
    ensures !MatchesSearch(ScenarioCatalog()[0], "pcb b")
  {
    TitleMisses();
    CategoryMisses();
    if Contains(Lower(""), "pcb b") {
      ContainsBounds(Lower(""), "pcb b");
      assert false;
    }
  }

  /** Searching "pcb b" under "all" shows only the second board. */
  lemma SearchScenario()
    ensures Visible(ScenarioCatalog(), "all", "pcb b") == ScenarioCatalog()[1..]
  {
    var c := ScenarioCatalog();
    SecondBoardMatches();
    FirstBoardMisses();
    VisiblePair(c[0], c[1], "all", "pcb b");
  }

  /** With nothing out of stock the out-of-stock filter shows nothing, and
      the grid is the placeholder. */
  lemma OutOfStockScenario()
    ensures Visible(ScenarioCatalog(), "out-of-stock", "") == []
    ensures Render(Visible(ScenarioCatalog(), "out-of-stock", "")) == NoResults
  {
    var c := ScenarioCatalog();
    VisiblePair(c[0], c[1], "out-of-stock", "");
  }

  // ---------------------------------------------------------------------
  // Category labels

  /** The category-to-label table of `formatCategory`. */
  const CategoryLabels: map<string, string> := map[
    "pcb-design" := "PCB Design",
    "etching" := "Etching",
    "fabrication" := "Fabrication",
    "laptop-repair" := "Laptop Repair",
    "mobile-repair" := "Mobile Repair",
    "electronic-components" := "Components",
    "electronics-gadgets" := "Gadgets",
    "diy-modules" := "DIY Modules",
    "oraimo-products" := "Oraimo",
    "laptops" := "Laptops"]

  /** The label the table lists for the category, or the category itself
      when the table has no entry (no label is empty, so a listed label is
      always used). */
  function FormatCategory(category: string): string {
    if category in CategoryLabels then CategoryLabels[category] else category
  }

  /** The ten listed categories get their labels; any other category is
      shown as it is. */
  lemma FormatCategoryTable(category: string)
    ensures FormatCategory("pcb-design") == "PCB Design"
    ensures FormatCategory("etching") == "Etching"
    ensures FormatCategory("fabrication") == "Fabrication"
    ensures FormatCategory("laptop-repair") == "Laptop Repair"
    ensures FormatCategory("mobile-repair") == "Mobile Repair"
    ensures FormatCategory("electronic-components") == "Components"
    ensures FormatCategory("electronics-gadgets") == "Gadgets"
    ensures FormatCategory("diy-modules") == "DIY Modules"
    ensures FormatCategory("oraimo-products") == "Oraimo"
    ensures FormatCategory("laptops") == "Laptops"
    ensures category !in {"pcb-design", "etching", "fabrication", "laptop-repair",
                          "mobile-repair", "electronic-components", "electronics-gadgets",
                          "diy-modules", "oraimo-products", "laptops"} ==>
            FormatCategory(category) == category
  {
  }

  // ---------------------------------------------------------------------
  // Rendering

  /** One gallery card: its data attributes, image, texts, category label
      and the optional out-of-stock label, new tag, featured badge and
      price tag. */
  datatype Card = Card(
    id: int,
    category: string,
    imageUrl: string,
    title: string,
    description: string,
    categoryLabel: string,
    outOfStockLabel: bool,
    newTag: bool,
    featuredBadge: bool,
    priceTag: Option<string>)

  function CardOf(p: Product): Card {
    Card(p.id, p.category, p.imageUrl, p.title, p.description, FormatCategory(p.category),
         p.outOfStock, p.isNew, p.featured, if HasPrice(p) then Some(p.price.value) else None)
  }

  /** `renderGallery`'s grid: the "no results" placeholder exactly when
      nothing is visible, otherwise one card per visible product, in order,
      whose markers mirror the product's flags and price. */
  function Render(visible: seq<Product>): (g: Grid<Card>)
    ensures g.NoResults? || g.Cards?
    ensures g.NoResults? <==> visible == []
    ensures visible != [] ==> g.Cards? && |g.items| == |visible|
    ensures g.Cards? ==> forall i :: 0 <= i < |visible| ==>
      && g.items[i].id == visible[i].id
      && g.items[i].category == visible[i].category
      && g.items[i].imageUrl == visible[i].imageUrl
      && g.items[i].title == visible[i].title
      && g.items[i].description == visible[i].description
      && g.items[i].categoryLabel == FormatCategory(visible[i].category)
      && g.items[i].outOfStockLabel == visible[i].outOfStock
      && g.items[i].newTag == visible[i].isNew
      && g.items[i].featuredBadge == visible[i].featured
      && (g.items[i].priceTag.Some? <==> HasPrice(visible[i]))
      && (g.items[i].priceTag.Some? ==> visible[i].price == Some(g.items[i].priceTag.value))
  {
    if visible == [] then NoResults
    else Cards(seq(|visible|, i requires 0 <= i < |visible| => CardOf(visible[i])))
  }

  /** With unique catalog ids, the id a card hands back on a click finds
      the very product the card shows. */
  lemma CardOpensItsProduct(ps: seq<Product>, filter: string, term: string, i: int)
    requires UniqueIds(ps)
    requires Render(Visible(ps, filter, term)).Cards?
    requires 0 <= i < |Render(Visible(ps, filter, term)).items|
    ensures Find(ps, Render(Visible(ps, filter, term)).items[i].id) ==
            Some(Visible(ps, filter, term)[i])
  {
    var v := Visible(ps, filter, term);
    assert v[i] in ps;
    FindUnique(ps, v[i]);
  }

  // ---------------------------------------------------------------------
  // Services

  /** A service descriptor. Its description and feature texts are not
      modelled. */
  datatype Service = Service(title: string, imageUrl: string, price: string)

  /** The five services compiled into the gallery, keyed by service id. */
  const Services: map<string, Service> := map[
    "pcb-design" := Service("PCB Design Service", "images/pcbdesign.jpeg", "Starting from Ksh. 750.00"),
    "etching" := Service("PCB Etching Services", "images/etching.jpg", "Starting from Ksh. 400.00"),
    "fabrication" := Service("PCB Fabrication", "images/pcbcomp.jpg", "Starting from Ksh. 1,000.00"),
    "laptop-repair" := Service("Laptop Repair Services", "images/motherboard.jpg", "Starting from Ksh. 500.00"),
    "mobile-repair" := Service("Mobile Repair Services", "images/phonerepair.jpg", "Starting from Ksh. 600.00")]

  // ---------------------------------------------------------------------
  // The detail modal

  datatype Badge = FeaturedBadge | NewBadge | OutOfStockBadge

  /** The buttons of a detail view. */
  datatype DetailAction = Inquire | ContactForQuote | CloseButton

  /** What the modal body holds: nothing yet, a product view or a service view. */
  datatype ModalBody =
    | Empty
    | ProductView(productId: int, title: string, description: string, imageUrl: string,
                  badges: seq<Badge>, price: Option<string>, categoryLabel: string,
                  features: Option<seq<string>>, actions: seq<DetailAction>)
    | ServiceView(key: string, service: Service, actions: seq<DetailAction>)

  /** The product view `openProductDetail` builds. */
  function ProductDetail(p: Product): (v: ModalBody)
    ensures v.ProductView? && v.productId == p.id && v.title == p.title
    ensures FeaturedBadge in v.badges <==> p.featured
    ensures NewBadge in v.badges <==> p.isNew
    ensures OutOfStockBadge in v.badges <==> p.outOfStock
    ensures v.description == p.description && v.imageUrl == p.imageUrl
    ensures v.price == (if HasPrice(p) then Some(p.price.value) else None)
    ensures v.categoryLabel == FormatCategory(p.category)
    ensures v.features == p.features
    ensures Inquire in v.actions <==> !p.outOfStock
    ensures ContactForQuote !in v.actions
    ensures |v.actions| > 0 && v.actions[|v.actions| - 1] == CloseButton
  {
    ProductView(
      p.id, p.title, p.description, p.imageUrl,
      (if p.featured then [FeaturedBadge] else []) +
      (if p.isNew then [NewBadge] else []) +
      (if p.outOfStock then [OutOfStockBadge] else []),
      if HasPrice(p) then Some(p.price.value) else None,
      FormatCategory(p.category),
      p.features,
      (if p.outOfStock then [] else [Inquire]) + [CloseButton])
  }

  /** The service view `openServiceDetail` builds. */
  function ServiceDetail(key: string, s: Service): (v: ModalBody)
    ensures v.ServiceView? && v.key == key && v.service == s
    ensures ContactForQuote in v.actions && CloseButton in v.actions && Inquire !in v.actions
  {
    ServiceView(key, s, [ContactForQuote, CloseButton])
  }

  /** Whether pressing a button of the view hides the modal. The inquire and
      contact buttons and the product view's close button call
      `closeDetailModal`; the service view's close button carries an inline
      handler whose `this` is the button itself, so it closes nothing. */
  predicate ActionCloses(body: ModalBody, action: DetailAction) {
    match body
    case Empty => false
    case ProductView(_, _, _, _, _, _, _, _, actions) => action in actions
    case ServiceView(_, _, _) => action == ContactForQuote
  }

  /** Closing actions by view: on a product every button shown closes; on a
      service only the contact button does. */
  lemma ActionsThatClose(p: Product, key: string, s: Service)
    ensures ActionCloses(ProductDetail(p), Inquire) <==> !p.outOfStock
    ensures ActionCloses(ProductDetail(p), CloseButton)
    ensures ActionCloses(ServiceDetail(key, s), ContactForQuote)
    ensures !ActionCloses(ServiceDetail(key, s), CloseButton)
  {
    var v := ProductDetail(p);
    assert v.actions[|v.actions| - 1] in v.actions;
  }

  // ---------------------------------------------------------------------
  // The controller

  class ProductGallery {
    var products: seq<Product>
    var filteredProducts: seq<Product>
    var currentFilter: string
    var searchTerm: string
    var grid: Grid<Card>
    var countLabel: string
    var modalShown: bool
    var modalBody: ModalBody

    /** The visible list is always drawn from the catalog, in catalog order. */
    ghost predicate Valid()
      reads this`products, this`filteredProducts
    {
      IsSubsequence(filteredProducts, products)
    }

    /** The state before the catalog arrives. The count element's initial
        text comes from the page and is modelled as empty. */
    constructor ()
      ensures Valid()
      ensures products == [] && filteredProducts == []
      ensures currentFilter == "all" && searchTerm == ""
      ensures grid == Blank && countLabel == ""
      ensures !modalShown && modalBody == Empty
    {
      products := [];
      filteredProducts := [];
      currentFilter := "all";
      searchTerm := "";
      grid := Blank;
      countLabel := "";
      modalShown := false;
      modalBody := Empty;
      SubsequenceOfItself<Product>([]);
    }

    /** The fetch resolving: `Some(list)` for a parsed `gallery` list,
        `None` for a failed request or unparsable document. A success shows
        the whole list whatever filter and term are set; a failure shows the
        error message and leaves everything else as it was. */
    method Load(outcome: Option<seq<Product>>)
      requires Valid()
      modifies this`products, this`filteredProducts, this`grid, this`countLabel
      ensures Valid()
      ensures outcome.Some? ==>
        && products == outcome.value && filteredProducts == outcome.value
        && grid == Render(outcome.value)
        && countLabel == CountLabel(|outcome.value|)
      ensures outcome.None? ==>
        && products == old(products) && filteredProducts == old(filteredProducts)
        && grid == LoadError && countLabel == old(countLabel)
    {
      match outcome
      case Some(list) =>
        products := list;
        filteredProducts := list;
        SubsequenceOfItself(list);
        RenderGallery();
        UpdateProductCount();
      case None =>
        grid := LoadError;
    }

    /** Redraws the grid from the visible list. The count is refreshed only
        when something is visible: the early return for an empty list skips
        it, so after a filter that matches nothing the count keeps showing
        its previous value. */
    method RenderGallery()
      modifies this`grid, this`countLabel
      ensures grid == Render(filteredProducts)
      ensures countLabel == if filteredProducts == [] then old(countLabel)
                            else CountLabel(|filteredProducts|)
    {
      if |filteredProducts| == 0 {
        grid := NoResults;
        return;
      }
      var visible := filteredProducts;
      grid := Cards(seq(|visible|, i requires 0 <= i < |visible| => CardOf(visible[i])));
      UpdateProductCount();
    }

    method UpdateProductCount()
      modifies this`countLabel
      ensures countLabel == CountLabel(|filteredProducts|)
    {
      countLabel := CountLabel(|filteredProducts|);
    }

    /** Recomputes the visible list from the catalog, the filter and the
        term, then redraws. */
    method FilterProducts()
      requires Valid()
      modifies this`filteredProducts, this`grid, this`countLabel
      ensures Valid()
      ensures filteredProducts == Visible(products, currentFilter, searchTerm)
      ensures grid == Render(filteredProducts)
      ensures countLabel == if filteredProducts == [] then old(countLabel)
                            else CountLabel(|filteredProducts|)
    {
      var kept: seq<Product> := [];
      var i := 0;
      while i < |products|
        invariant 0 <= i <= |products|
        invariant kept == Visible(products[..i], currentFilter, searchTerm)
      {
        var p := products[i];
        assert products[..i + 1][..i] == products[..i];
        if Shows(p, currentFilter, searchTerm) {
          kept := kept + [p];
        }
        i := i + 1;
      }
      assert products[..i] == products;
      filteredProducts := kept;
      VisibleIsSubsequence(products, currentFilter, searchTerm);
      RenderGallery();
    }

    /** A filter button click. */
    method SelectFilter(filter: string)
      requires Valid()
      modifies this`currentFilter, this`filteredProducts, this`grid, this`countLabel
      ensures Valid()
      ensures currentFilter == filter
      ensures filteredProducts == Visible(products, currentFilter, searchTerm)
      ensures grid == Render(filteredProducts)
      ensures countLabel == if filteredProducts == [] then old(countLabel)
                            else CountLabel(|filteredProducts|)
    {
      currentFilter := filter;
      FilterProducts();
    }

    /** An input event on the search box carrying its current `value`. */
    method InputSearch(value: string)
      requires Valid()
      modifies this`searchTerm, this`filteredProducts, this`grid, this`countLabel
      ensures Valid()
      ensures searchTerm == SearchTerm(value)
      ensures filteredProducts == Visible(products, currentFilter, searchTerm)
      ensures grid == Render(filteredProducts)
      ensures countLabel == if filteredProducts == [] then old(countLabel)
                            else CountLabel(|filteredProducts|)
    {
      searchTerm := SearchTerm(value);
      FilterProducts();
    }

    /** Opens the detail of a service. An unknown key changes nothing; a
        known one shows its view, replacing whatever the modal held. */
    method OpenServiceDetail(key: string)
      modifies this`modalShown, this`modalBody
      ensures key !in Services ==> modalShown == old(modalShown) && modalBody == old(modalBody)
      ensures key in Services ==> modalShown && modalBody == ServiceDetail(key, Services[key])
    {
      if key !in Services {
        return;
      }
      modalBody := ServiceDetail(key, Services[key]);
      modalShown := true;
    }

    /** Opens the detail of a catalog product. An id no product carries
        changes nothing; otherwise the first product with that id is shown,
        replacing whatever the modal held. */
    method OpenProductDetail(id: int)
      modifies this`modalShown, this`modalBody
      ensures Find(products, id).None? ==>
        modalShown == old(modalShown) && modalBody == old(modalBody)
      ensures Find(products, id).Some? ==>
        modalShown && modalBody == ProductDetail(Find(products, id).value)
    {
      var found := Find(products, id);
      if found.None? {
        return;
      }
      modalBody := ProductDetail(found.value);
      modalShown := true;
    }

    /** Hides the modal; its body stays as it was. */
    method CloseDetailModal()
      modifies this`modalShown
      ensures !modalShown
    {
      modalShown := false;
    }

    /** A button of the detail view pressed while the modal is shown. The
        scroll to the contact section that follows the inquire and contact
        buttons is not modelled. */
    method PressDetailAction(action: DetailAction)
      modifies this`modalShown
      ensures modalShown == (old(modalShown) && !ActionCloses(modalBody, action))
    {
      if modalShown && ActionCloses(modalBody, action) {
        CloseDetailModal();
      }
    }

    /** The modal's own close control. */
    method PressCloseControl()
      modifies this`modalShown
      ensures !modalShown
    {
      CloseDetailModal();
    }

    /** A click inside the modal element; only a click on the backdrop
        itself closes. */
    method ClickModal(onBackdrop: bool)
      modifies this`modalShown
      ensures modalShown == (old(modalShown) && !onBackdrop)
    {
      if onBackdrop {
        CloseDetailModal();
      }
    }

    /** A key press anywhere in the document; Escape closes. */
    method KeyDown(key: string)
      modifies this`modalShown
      ensures modalShown == (old(modalShown) && key != "Escape")
    {
      if key == "Escape" {
        CloseDetailModal();
      }
    }
  }
}
