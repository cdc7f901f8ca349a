/** What both versions of the gallery share: the product record loaded from
    the catalog document, the order-preserving filter behind
    `Array.prototype.filter`, the linear lookup behind `Array.prototype.find`,
    the free-text search predicate, the product-count label and the states of
    the grid container. */
module Catalog {
  import opened Text

  datatype Option<T> = None | Some(value: T)

  /** One entry of the catalog's `gallery` list. A JSON field that is absent
      is `None`. `isNew` is the field the documents call `new`. */
  datatype Product = Product(
    id: int,
    title: string,
    description: string,
    imageUrl: string,
    category: string,
    price: Option<string>,
    featured: bool,
    outOfStock: bool,
    isNew: bool,
    features: Option<seq<string>>)

  /** JavaScript truthiness of `product.price`: absent and the empty string
      are both false. */
  predicate HasPrice(p: Product) {
    p.price.Some? && p.price.value != ""
  }

  /** The search predicate: an empty term passes everything; otherwise the
      lower-cased title, description or category has to contain the term. */
  predicate MatchesSearch(p: Product, term: string) {
    || term == ""
    || Contains(Lower(p.title), term)
    || Contains(Lower(p.description), term)
    || Contains(Lower(p.category), term)
  }

  /** The term the search-input handler stores: `value.toLowerCase().trim()`. */
  function SearchTerm(input: string): string {
    Trim(Lower(input))
  }

  /** The stored term is already lower-case and trimmed, so normalising it
      again changes nothing. */
  lemma SearchTermNormal(input: string)
    ensures Lower(SearchTerm(input)) == SearchTerm(input)
    ensures Trim(SearchTerm(input)) == SearchTerm(input)
  {
    var low := Lower(input);
    var t := SearchTerm(input);
    TrimSplits(low);
    LowerHasNoUpper(input);
    LowerFixed(t);
    TrimIdempotent(low);
  }

  /** Search ignores letter case: a product whose title, description or
      category contains the typed text in any casing is matched by the term
      the handler stores. */
  lemma SearchIgnoresCase(p: Product, input: string, w: string)
    requires Lower(w) == SearchTerm(input)
    requires Contains(p.title, w) || Contains(p.description, w) || Contains(p.category, w)
    ensures MatchesSearch(p, SearchTerm(input))
  {
    if Contains(p.title, w) {
      ContainsLower(p.title, w);
    } else if Contains(p.description, w) {
      ContainsLower(p.description, w);
    } else {
      ContainsLower(p.category, w);
    }
  }

  // ---------------------------------------------------------------------
  // Order-preserving filtering

  /** `s.filter(keep)`: the elements of `s` that `keep` accepts, in order. */
  function Select<T>(s: seq<T>, keep: T -> bool): (r: seq<T>)
    ensures |r| <= |s|
    ensures forall k :: 0 <= k < |r| ==> keep(r[k]) && r[k] in s
  {
    if s == [] then []
    else
      var init := Select(s[..|s| - 1], keep);
      if keep(s[|s| - 1]) then init + [s[|s| - 1]] else init
  }

  /** `idx` lists strictly increasing positions of `s` whose elements,
      read in order, are `r`. */
  ghost predicate EmbedsAt<T>(r: seq<T>, s: seq<T>, idx: seq<nat>) {
    && |idx| == |r|
    && (forall k :: 0 <= k < |idx| ==> idx[k] < |s| && r[k] == s[idx[k]])
    && (forall k, l :: 0 <= k < l < |idx| ==> idx[k] < idx[l])
  }

  /** `r` is `s` with some elements left out and the rest in their order. */
  ghost predicate IsSubsequence<T>(r: seq<T>, s: seq<T>) {
    exists idx :: EmbedsAt(r, s, idx)
  }

  /** The positions of `s` that `keep` accepts, in increasing order. */
  function Positions<T>(s: seq<T>, keep: T -> bool): seq<nat> {
    if s == [] then []
    else
      var init := Positions(s[..|s| - 1], keep);
      if keep(s[|s| - 1]) then init + [|s| - 1] else init
  }

  /** The positions are in range, strictly increasing, and as many as the
      selected elements. */
  lemma {:induction false} PositionsIncrease<T>(s: seq<T>, keep: T -> bool)
    ensures |Positions(s, keep)| == |Select(s, keep)|
    ensures forall k :: 0 <= k < |Positions(s, keep)| ==> Positions(s, keep)[k] < |s|
    ensures forall k, l :: 0 <= k < l < |Positions(s, keep)| ==>
              Positions(s, keep)[k] < Positions(s, keep)[l]
  {
    if s != [] {
      PositionsIncrease(s[..|s| - 1], keep);
    }
  }

  /** The accepted positions are exactly where `Select` takes its elements from. */
  lemma {:induction false} SelectEmbeds<T>(s: seq<T>, keep: T -> bool)
    ensures EmbedsAt(Select(s, keep), s, Positions(s, keep))
  {
    PositionsIncrease(s, keep);
    if s != [] {
      var init := s[..|s| - 1];
      SelectEmbeds(init, keep);
      PositionsIncrease(init, keep);
      var idx, r := Positions(init, keep), Select(init, keep);
      assert forall k :: 0 <= k < |idx| ==> r[k] == s[idx[k]];
    }
  }

  /** A position is listed exactly when `keep` accepts the element there. */
  lemma {:induction false} PositionsComplete<T>(s: seq<T>, keep: T -> bool)
    ensures forall i :: 0 <= i < |s| ==> (keep(s[i]) <==> i in Positions(s, keep))
  {
    if s != [] {
      var init := s[..|s| - 1];
      PositionsComplete(init, keep);
      PositionsIncrease(init, keep);
    }
  }

  /** Filtering keeps catalog order and never invents an element. */
  lemma SelectIsSubsequence<T>(s: seq<T>, keep: T -> bool)
    ensures IsSubsequence(Select(s, keep), s)
  {
    SelectEmbeds(s, keep);
  }

  lemma SubsequenceOfItself<T>(s: seq<T>)
    ensures IsSubsequence(s, s)
  {
    var idx := seq(|s|, i requires 0 <= i < |s| => i as nat);
    assert EmbedsAt(s, s, idx);
  }

  /** Membership in the filtered list is exactly "in the list and accepted". */
  lemma {:induction false} SelectMembership<T>(s: seq<T>, keep: T -> bool, x: T)
    ensures x in Select(s, keep) <==> x in s && keep(x)
  {
    if s != [] {
      var init := s[..|s| - 1];
      SelectMembership(init, keep, x);
      assert s == init + [s[|s| - 1]];
    }
  }

  /** A predicate that accepts every element changes nothing. */
  lemma {:induction false} SelectAll<T>(s: seq<T>, keep: T -> bool)
    requires forall k :: 0 <= k < |s| ==> keep(s[k])
    ensures Select(s, keep) == s
  {
    if s != [] {
      SelectAll(s[..|s| - 1], keep);
      assert s == s[..|s| - 1] + [s[|s| - 1]];
    }
  }

  /** Filtering again with the same predicate changes nothing. */
  lemma SelectIdempotent<T>(s: seq<T>, keep: T -> bool)
    ensures Select(Select(s, keep), keep) == Select(s, keep)
  {
    SelectAll(Select(s, keep), keep);
  }

  /** A predicate that accepts only what another accepts keeps a
      subsequence of what the other keeps. */
  lemma {:induction false} SelectNarrower<T>(s: seq<T>, narrow: T -> bool, wide: T -> bool)
    requires forall x :: narrow(x) ==> wide(x)
    ensures Select(Select(s, wide), narrow) == Select(s, narrow)
  {
    if s != [] {
      var init := s[..|s| - 1];
      SelectNarrower(init, narrow, wide);
      var w := Select(init, wide);
      if wide(s[|s| - 1]) {
        assert (w + [s[|s| - 1]])[..|w|] == w;
      }
    }
  }

  /** Two predicates that agree on every element select the same elements. */
  lemma {:induction false} SelectAgree<T>(s: seq<T>, f: T -> bool, g: T -> bool)
    requires forall k :: 0 <= k < |s| ==> f(s[k]) == g(s[k])
    ensures Select(s, f) == Select(s, g)
  {
    if s != [] {
      SelectAgree(s[..|s| - 1], f, g);
    }
  }

  // ---------------------------------------------------------------------
  // Lookup by id

  /** The linear lookup `Array.prototype.find` performs with an id test:
      the first product carrying the id, or nothing. */
  function Find(ps: seq<Product>, id: int): (r: Option<Product>)
    ensures r.None? <==> forall p :: p in ps ==> p.id != id
    ensures r.Some? ==> r.value in ps && r.value.id == id
  {
    if ps == [] then None
    else if ps[0].id == id then Some(ps[0])
    else Find(ps[1..], id)
  }

  /** The product found is the first one carrying the id. */
  lemma {:induction false} FindFirst(ps: seq<Product>, id: int)
    requires Find(ps, id).Some?
    ensures exists i :: 0 <= i < |ps| && ps[i] == Find(ps, id).value &&
                        forall j :: 0 <= j < i ==> ps[j].id != id
  {
    if ps[0].id != id {
      FindFirst(ps[1..], id);
      var i :| 0 <= i < |ps[1..]| && ps[1..][i] == Find(ps, id).value &&
               forall j :: 0 <= j < i ==> ps[1..][j].id != id;
      assert ps[i + 1] == Find(ps, id).value;
      assert forall j :: 1 <= j < i + 1 ==> ps[j] == ps[1..][j - 1];
    } else {
      assert ps[0] == Find(ps, id).value;
    }
  }

  /** Catalog ids are unique. */
  predicate UniqueIds(ps: seq<Product>) {
    forall i, j :: 0 <= i < j < |ps| ==> ps[i].id != ps[j].id
  }

  /** With unique ids, looking up a catalog product's id finds that product. */
  lemma {:induction false} FindUnique(ps: seq<Product>, p: Product)
    requires UniqueIds(ps)
    requires p in ps
    ensures Find(ps, p.id) == Some(p)
  {
    if ps[0] != p {
      assert p in ps[1..];
      var i :| 0 <= i < |ps[1..]| && ps[1..][i] == p;
      assert ps[0].id != ps[i + 1].id;
      FindUnique(ps[1..], p);
    }
  }

  // ---------------------------------------------------------------------
  // The count label

  /** The count label: the decimal count, the word "product", and a plural
      "s" for every count other than one. */
  function CountLabel(n: nat): string {
    Decimal(n) + " product" + (if n != 1 then "s" else "")
  }

  /** The label is singular for exactly one product and plural otherwise. */
  lemma CountLabelForms(n: nat)
    ensures n == 1 ==> CountLabel(n) == "1 product"
    ensures n != 1 ==> CountLabel(n) == Decimal(n) + " products"
    ensures CountLabel(0) == "0 products"
    ensures CountLabel(2) == "2 products"
  {
    assert Decimal(1) == "1";
    assert Decimal(0) == "0";
    assert Decimal(2) == "2";
  }

  /** Different counts never share a label. */
  lemma CountLabelInjective(m: nat, n: nat)
    requires CountLabel(m) == CountLabel(n)
    ensures m == n
  {
    var a, b := Decimal(m), Decimal(n);
    var l := CountLabel(m);
    if |a| != |b| {
      // One decimal text would end where the other still has a digit, but
      // the character after the number is always a space.
      assert false;
    }
    assert a == l[..|a|] == b;
    DecimalInjective(m, n);
  }

  // ---------------------------------------------------------------------
  // The grid container

  /** What `galleryGrid` shows: nothing yet, the load-error message, the
      "no results" placeholder, or one card per visible product. */
  datatype Grid<C> = Blank | LoadError | NoResults | Cards(items: seq<C>)
}
