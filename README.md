# Product gallery controller, modelled in Dafny

This project models `ProductGallery`, the client-side controller of a
storefront page of an electronics workshop. It holds a catalog of products
fetched once, a filter chosen with the filter buttons and a term typed into
the search box. From these it derives the visible products, draws them as a
grid of cards with a product count, and opens a detail modal for a product
or one of five fixed services. Two versions exist, and both are modelled:

- `script.js` is the current controller. It is the module `Gallery` in
  `gallery.dfy`.
- `src.js` is an older one. Its filter has no out-of-stock rule, its cards
  are simpler, its category table is shorter, and its modal fills fixed page
  slots. It is the module `LegacyGallery` in `legacy_gallery.dfy`.

Shared pieces:

- `catalog.dfy` (module `Catalog`) holds the shared parts. These are the
  product record, the order-preserving filter behind `Array.prototype.filter`
  (`Select`), the first-match lookup behind `Array.prototype.find` (`Find`),
  the search predicate, the normalised search term and the count label.
- `text.dfy` (module `Text`) holds the string operations the controller
  borrows from JavaScript: `toLowerCase`, `trim`, `includes`, and the decimal
  text of a number.

Each controller is a class whose fields are the ones the JavaScript object
updates: `products`, `filteredProducts`, `currentFilter`, `searchTerm`, the
grid contents, the count label, and the modal state. User events are methods:

- a filter click;
- a search input;
- a card click, which is `OpenProductDetail` / `OpenModal` with the card's id;
- a service click;
- the close control, a backdrop click and a key press.

The fetch resolving is the method `Load`. Its argument is either the parsed
list or a failure. Every method is proved against pure functions: `Visible`
for the filter, `Render` for the grid, `CountLabel`, `ProductDetail` /
`ServiceDetail` for the modal, and `Find`. The lemmas prove what the page
promises about those functions.

Behaviour of the code that the model keeps, where a reader might expect
otherwise:

- `renderGallery` returns early on an empty list before it updates the count
  (script.js:120-123, src.js:41-44). After a filter or search that matches
  nothing, the count keeps its previous text. Only `loadProducts` writes
  "0 products" for an empty catalog, because it calls `updateProductCount`
  itself. The `RenderGallery`, `FilterProducts`, `SelectFilter` and
  `InputSearch` contracts state this.
- `closeDetailModal` / `closeProductModal` only hide the modal. The body or
  slots keep their content until the next open.
- A successful load shows the whole catalog, whatever filter or term is
  already set (script.js:109-110). The class invariant therefore promises
  only that the visible list is a subsequence of the catalog. Equality with
  `Visible` is promised after each `FilterProducts`.
- The Close button of the service view has an inline handler whose `this` is
  the button (script.js:196). Pressing it does not hide the modal, and
  `ActionCloses` and `PressDetailAction` say so. The service view is closed
  by the close control, a backdrop click or Escape.
- `features: []` counts as present in JavaScript, so `Some([])` shows an
  empty feature list. An empty `price` string counts as absent (`HasPrice`).

## Model

| member | source | states |
|---|---|---|
| `Text.Lower` | script.js:304-306 | lower-casing keeps the length and lower-cases each character on its own |
| `Text.ContainsAt` | script.js:304-306 | `includes` holds iff the term starts at some position of the text |
| `Text.ContainsLower` | script.js:303-306 | an occurrence of a term survives lower-casing both text and term |
| `Text.TrimSplits` | script.js:350 | `trim` cuts the input into leading white space, the result and trailing white space, and the result has white space at neither end |
| `Text.TrimIdempotent` | script.js:350 | trimming a trimmed term changes nothing |
| `Text.Decimal` | script.js:316 | the count's text is non-empty, all digits, and has no leading zero unless it is "0" |
| `Text.ParseDecimalOfDecimal` | script.js:316 | reading the count's text back gives the count |
| `Catalog.SearchTermNormal` | script.js:349-352 | the stored search term is already lower-case and trimmed |
| `Catalog.SearchIgnoresCase` | script.js:303-306 | a product whose title, description or category contains the typed text in any letter case matches the stored term |
| `Catalog.Select` | script.js:290-309 | the filtered list is no longer than the catalog, and each of its elements is accepted and comes from the catalog |
| `Catalog.SelectIsSubsequence` | script.js:290-309 | the filtered list is the catalog with elements left out, in catalog order |
| `Catalog.PositionsComplete` | script.js:290-309 | a catalog position is taken exactly when the predicate accepts its product |
| `Catalog.SelectMembership` | script.js:290-309 | an element is in the filtered list iff it is in the catalog and accepted |
| `Catalog.SelectAll` | script.js:290-309 | a predicate that accepts every product returns the catalog unchanged |
| `Catalog.SelectIdempotent` | script.js:289-312 | filtering the filtered list again with the same predicate changes nothing |
| `Catalog.SelectNarrower` | script.js:303-308 | filtering by a stricter predicate after a looser one is the same as filtering by the stricter one alone |
| `Catalog.SelectAgree` | src.js:118-129 | two predicates that agree on every catalog product select the same list |
| `Catalog.Find` | script.js:219-220 | the lookup misses iff no product has the id; a hit is a catalog product with that id |
| `Catalog.FindFirst` | script.js:219 | a hit is the first product with that id |
| `Catalog.FindUnique` | script.js:219-220 | with unique ids, looking up a catalog product's id returns that product |
| `Catalog.CountLabelForms` | script.js:314-317 | the label is "1 product" for one, "<n> products" for any other n, so "0 products" and "2 products" |
| `Catalog.CountLabelInjective` | script.js:314-317 | different counts never produce the same label |
| `Gallery.VisibleIsSubsequence` | script.js:290-309 | the visible list is a subsequence of the catalog, in catalog order |
| `Gallery.VisibleMembership` | script.js:293-308 | a product is visible iff it is in the catalog and passes the filter and the search |
| `Gallery.VisibleSound` | script.js:293-301 | under "featured" every visible product is featured; under "out-of-stock" every one is out of stock; under any other value except "all" every one has that category |
| `Gallery.VisibleUnfiltered` | script.js:293-308 | with "all" and an empty term the visible list is the whole catalog |
| `Gallery.VisibleIdempotent` | script.js:289-312 | recomputing from the visible list with the same filter and term gives the same list |
| `Gallery.SearchOnlyNarrows` | script.js:303-308 | with an empty term the filter alone decides; a term only removes products from what the filter shows |
| `Gallery.FeaturedScenario` | script.js:295-296 | on a featured etching board and a plain fabrication board, "featured" shows only the first |
| `Gallery.SearchScenario` | script.js:303-306 | on the same catalog, the term "pcb b" under "all" shows only the second board |
| `Gallery.OutOfStockScenario` | script.js:119-123 | on the same catalog, "out-of-stock" shows nothing and the grid is the "no results" placeholder |
| `Gallery.FormatCategoryTable` | script.js:152-166 | the ten listed categories map to their labels; every other category is returned unchanged |
| `Gallery.Render` | script.js:119-142 | the placeholder iff nothing is visible; otherwise one card per visible product, in order. Each card has the product's id, category, image, texts and category label, an out-of-stock label, new tag and featured badge exactly when the flags are set, and a price tag exactly when the price is truthy |
| `Gallery.CardOpensItsProduct` | script.js:145-147 | with unique ids, the id a card hands back when clicked finds the product that card shows |
| `Gallery.ProductDetail` | script.js:222-263 | the product view shows the product's title, description and image, has each badge iff its flag, shows the product's own price exactly when that price is truthy, the mapped category and the features. It has an inquire action iff the product is in stock, and always ends with a close button |
| `Gallery.ServiceDetail` | script.js:172-202 | the service view shows the service and has the contact and close buttons and no inquire button |
| `Gallery.ActionsThatClose` | script.js:193-282 | on a product view the inquire button (present iff in stock) and the close button close the modal; on a service view the contact button closes it and the close button does not |
| `Gallery.ProductGallery.constructor` | script.js:2-6 | empty catalog and visible list, filter "all", empty term, blank grid, modal hidden |
| `Gallery.ProductGallery.Load` | script.js:105-117 | a loaded list becomes the catalog and the visible list, and is drawn and counted; a failure shows the error message and changes nothing else |
| `Gallery.ProductGallery.RenderGallery` | script.js:119-150 | the grid becomes `Render` of the visible list; the count is refreshed only when something is visible |
| `Gallery.ProductGallery.UpdateProductCount` | script.js:314-317 | the count label becomes the label of the visible list's length |
| `Gallery.ProductGallery.FilterProducts` | script.js:289-312 | the visible list becomes `Visible` of the catalog, filter and term, and stays a subsequence of the catalog; then the gallery is redrawn |
| `Gallery.ProductGallery.SelectFilter` | script.js:321-328 | a filter click sets the filter and recomputes the visible list with it |
| `Gallery.ProductGallery.InputSearch` | script.js:349-352 | a search input stores the trimmed, lower-cased value and recomputes the visible list with it |
| `Gallery.ProductGallery.OpenServiceDetail` | script.js:168-216 | an unknown key changes nothing; a known key shows that service's view, replacing any previous subject |
| `Gallery.ProductGallery.OpenProductDetail` | script.js:218-283 | an id no product has changes nothing; otherwise the first product with that id is shown, replacing any previous subject, whether or not the modal was open |
| `Gallery.ProductGallery.CloseDetailModal` | script.js:285-287 | the modal is hidden and its body is left as it was |
| `Gallery.ProductGallery.PressDetailAction` | script.js:268-282 | a button of the shown view hides the modal exactly when that button closes it |
| `Gallery.ProductGallery.PressCloseControl` | script.js:355 | the modal's close control hides it |
| `Gallery.ProductGallery.ClickModal` | script.js:356-358 | a click hides the modal iff it lands on the backdrop |
| `Gallery.ProductGallery.KeyDown` | script.js:361-363 | Escape hides the modal; any other key changes nothing |
| `LegacyGallery.VisibleIsSubsequence` | src.js:118-129 | the visible list is a subsequence of the catalog, in catalog order |
| `LegacyGallery.VisibleMembership` | src.js:118-129 | a product is visible iff it is in the catalog and passes the filter and the search |
| `LegacyGallery.VisibleSound` | src.js:119-121 | under "featured" every visible product is featured; under any other value except "all", "out-of-stock" included, every one has that category |
| `LegacyGallery.VisibleUnfiltered` | src.js:119-128 | with "all" and an empty term the whole catalog is visible |
| `LegacyGallery.AgreesWithCurrent` | src.js:119-121 | for every filter value except "out-of-stock" the older and current versions show the same list |
| `LegacyGallery.OutOfStockFilterDiffers` | src.js:119-121 | an out-of-stock etching product is shown by the current version under "out-of-stock" and hidden by the older one |
| `LegacyGallery.FormatCategoryTable` | src.js:71-83 | the eight listed categories map to their labels; "laptops", "oraimo-products" and every other category are returned unchanged |
| `LegacyGallery.LabelsAreCurrentRestricted` | src.js:71-83 | the older table is the current one without its "oraimo-products" and "laptops" entries |
| `LegacyGallery.Render` | src.js:40-61 | the placeholder iff nothing is visible; otherwise one card per visible product, in order, with the product's id, category, image, texts and category label, the featured badge iff featured and the price tag iff the price is truthy |
| `LegacyGallery.ProductGallery.constructor` | src.js:2-6 | empty catalog and visible list, filter "all", empty term, blank grid, modal hidden, no price element |
| `LegacyGallery.ProductGallery.Load` | src.js:26-38 | a loaded list becomes the catalog and the visible list, and is drawn and counted; a failure shows the error message |
| `LegacyGallery.ProductGallery.RenderGallery` | src.js:40-69 | the grid becomes `Render` of the visible list; the count is refreshed only when something is visible |
| `LegacyGallery.ProductGallery.UpdateProductCount` | src.js:134-137 | the count label is "1 product" for one visible product and "<n> products" otherwise |
| `LegacyGallery.ProductGallery.FilterProducts` | src.js:117-132 | the visible list becomes `Visible` of the catalog, filter and term, and stays a subsequence of the catalog |
| `LegacyGallery.ProductGallery.SelectFilter` | src.js:141-148 | a filter click sets the filter and recomputes |
| `LegacyGallery.ProductGallery.InputSearch` | src.js:151-154 | a search input stores the trimmed, lower-cased value and recomputes |
| `LegacyGallery.ProductGallery.OpenModal` | src.js:85-111 | an unknown id changes nothing. A hit fills the image, title, description and category slots and shows the modal. Given at most one price element before, afterwards there is exactly one holding the price when the price is truthy, and none otherwise |
| `LegacyGallery.ProductGallery.CloseProductModal` | src.js:113-115 | the modal is hidden and its slots and price element are left as they were |
| `LegacyGallery.ProductGallery.PressCloseControl` | src.js:157 | the close control hides the modal |
| `LegacyGallery.ProductGallery.ClickModal` | src.js:158-160 | a click hides the modal iff it lands on the backdrop |
| `LegacyGallery.ProductGallery.KeyDown` | src.js:163-165 | Escape hides the modal; any other key changes nothing |

## Left out

- Fetching and parsing `data.json` are network I/O. `Load` takes their
  outcome as a parameter: a parsed `gallery` list or a failure. A document
  without a `gallery` field sets `products` to `undefined` before the error
  is caught, so later filtering would throw. The model treats that case as a
  plain failure that keeps the previous catalog.
- HTML strings, `innerHTML`, `querySelector`, `classList` and listener
  wiring are not modelled. The grid is a list of card records and the modal
  is a shown flag plus a body. The active-state styling of filter buttons is
  not modelled either.
- Smooth scrolling is not modelled: the anchor handler, and the scroll to
  the contact section after the inquire and contact buttons.
- `Text.Lower`: approximates `toLowerCase` on ASCII only; other letters are
  left as they are.
- `Text.TrimSplits`: treats only the six ASCII white-space characters as
  white space, where `trim` also removes Unicode spaces and line separators.
- The legacy modal's date slot is not modelled, and the product record has
  no date field. The slot is filled by `toLocaleDateString`, which depends
  on the locale.
- Lookups of inherited property names are not modelled. In JavaScript,
  `categoryMap['constructor']` and `services['constructor']` find a property
  every object inherits. The model's tables contain only their listed keys.
- Service descriptions and feature lists are literal text and are not
  modelled. A service keeps its title, image and price.
- The count element's text before the first load comes from the page. It is
  modelled as the empty string.
- `parseInt(item.dataset.id)` is taken to hand back the card's product id
  unchanged.
