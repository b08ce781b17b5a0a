/**
 * The product catalogue page: a fixed table of eight products, filtered by a selected
 * category ("all" for every category) and an optional selected brand, with a mobile filter
 * sidebar and a product detail modal.
 */
module ProductsPage {
  import opened Wrappers
  import opened Seqs

  /** The fields of a product the filter and the cards read (icons and texts of the card are left out). */
  datatype Product = Product(id: int, name: string, brand: string, category: string, badge: string)

  /** The category id that applies no category filter. */
  const ALL: string := "all"

  /** The category ids of the sidebar, in order. */
  const CATEGORY_IDS: seq<string> := ["all", "cables", "iluminacion", "proteccion", "herramientas", "solar"]

  /** The brand chips of the sidebar, in order. */
  const BRANDS: seq<string> := ["Schneider Electric", "Procables", "Centelsa", "Ilumax", "Truper", "3M", "Legrand", "Lumek"]

  const MOCK_PRODUCTS: seq<Product> := [
    Product(1, "Cable THHN/THWN-2 Calibre 12 AWG", "Procables", "cables", "RETIE"),
    Product(2, "Breaker Enchufable 1P 20A", "Schneider Electric", "proteccion", "Original"),
    Product(3, "Panel LED Incrustar 18W Redondo", "Ilumax", "iluminacion", "Ahorro 80%"),
    Product(4, "Alicate Electricista 8\" Aislado", "Truper", "herramientas", "1000V"),
    Product(5, "Cinta Aislante Super 33+", "3M", "cables", "Premium"),
    Product(6, "Reflector LED 50W Exterior", "Ilumax", "iluminacion", "IP65"),
    Product(7, "Tablero de Circuitos 12 Puestos", "Legrand", "proteccion", "RETIE"),
    Product(8, "Kit Solar Básico 500W", "Lumek", "solar", "Eco")
  ]

  /** "all" matches every product; any other category only the products of that category. */
  predicate MatchesCategory(p: Product, category: string) {
    category == ALL || p.category == category
  }

  /** No brand (or an empty one, which is falsy) matches every product; otherwise the brand must be equal. */
  predicate MatchesBrand(p: Product, brand: Option<string>) {
    brand.None? || brand.value == "" || p.brand == brand.value
  }

  /** The products matching both the category and the brand, in their order. */
  function FilterProducts(products: seq<Product>, category: string, brand: Option<string>): seq<Product> {
    Filter(products, (p: Product) => MatchesCategory(p, category) && MatchesBrand(p, brand))
  }

  /** A product is kept exactly when it matches both the category and the brand. */
  lemma FilterProductsMembership(products: seq<Product>, category: string, brand: Option<string>, p: Product)
    ensures p in FilterProducts(products, category, brand)
            <==> p in products && MatchesCategory(p, category) && MatchesBrand(p, brand)
  {
    FilterMembership(products, (p: Product) => MatchesCategory(p, category) && MatchesBrand(p, brand), p);
  }

  /** The kept products are in their original order. */
  lemma FilterProductsIsSubseq(products: seq<Product>, category: string, brand: Option<string>)
    ensures IsSubseq(FilterProducts(products, category, brand), products)
  {
    FilterIsSubseq(products, (p: Product) => MatchesCategory(p, category) && MatchesBrand(p, brand));
  }

  /** The products shown: the table filtered. */
  function FilteredProducts(category: string, brand: Option<string>): seq<Product> {
    FilterProducts(MOCK_PRODUCTS, category, brand)
  }

  /** Without filters every product is kept. */
  lemma UnfilteredKeepsAll(products: seq<Product>)
    ensures FilterProducts(products, ALL, None) == products
  {
    FilterKeepsAll(products, (p: Product) => MatchesCategory(p, ALL) && MatchesBrand(p, None));
  }

  /** Without filters the whole table of eight products is shown. */
  lemma UnfilteredShowsAll()
    ensures FilteredProducts(ALL, None) == MOCK_PRODUCTS
    ensures |FilteredProducts(ALL, None)| == 8
  {
    UnfilteredKeepsAll(MOCK_PRODUCTS);
  }

  /** Every product's brand is one of the chips and its category one of the sidebar's ids. */
  lemma TableUsesSidebarValues()
    ensures forall k :: 0 <= k < |MOCK_PRODUCTS| ==> MOCK_PRODUCTS[k].brand in BRANDS
    ensures forall k :: 0 <= k < |MOCK_PRODUCTS| ==> MOCK_PRODUCTS[k].category in CATEGORY_IDS
  {
  }

  /** The chip "Centelsa" names no product of the table, so selecting it alone shows nothing. */
  lemma UnusedBrandShowsNothing()
    ensures FilteredProducts(ALL, Some("Centelsa")) == []
  {
    forall k | 0 <= k < |MOCK_PRODUCTS|
      ensures MOCK_PRODUCTS[k].brand != "Centelsa"
    {
      assert MOCK_PRODUCTS[k].brand[0] != 'C';
    }
    FilterDropsAll(MOCK_PRODUCTS, (p: Product) => MatchesCategory(p, ALL) && MatchesBrand(p, Some("Centelsa")));
  }

  /** The brand after clicking a chip: the chip's brand is cleared when selected and selected otherwise. */
  function ToggleBrand(current: Option<string>, brand: string): (r: Option<string>)
    ensures current == Some(brand) ==> r.None?
    ensures current != Some(brand) ==> r == Some(brand)
  {
    if current == Some(brand) then None else Some(brand)
  }

  /** From no brand, or from the same brand, clicking a chip twice restores the selection. */
  lemma ToggleBrandTwice(current: Option<string>, brand: string)
    requires current.None? || current == Some(brand)
    ensures ToggleBrand(ToggleBrand(current, brand), brand) == current
  {
  }

  /** From another brand, clicking a chip twice clears the selection instead of restoring it. */
  lemma ToggleBrandTwiceFromOther(other: string, brand: string)
    requires other != brand
    ensures ToggleBrand(ToggleBrand(Some(other), brand), brand).None?
  {
  }

  /** What the grid area shows. */
  datatype GridView = Grid(cards: seq<Product>) | EmptyPanel

  /** A card per filtered product, or the empty-result panel when none passes. */
  function GridOf(filtered: seq<Product>): (v: GridView)
    ensures v.EmptyPanel? <==> filtered == []
    ensures v.Grid? ==> v.cards == filtered
  {
    if |filtered| > 0 then Grid(filtered) else EmptyPanel
  }

  /** The page's state. */
  class Catalogue {
    var selectedCategory: string
    var selectedBrand: Option<string>
    var sidebarOpen: bool
    var selectedProduct: Option<Product>

    /** Every category, no brand, sidebar closed, no product open. */
    constructor()
      ensures selectedCategory == ALL && selectedBrand.None?
      ensures !sidebarOpen && selectedProduct.None?
    {
      selectedCategory := ALL;
      selectedBrand := None;
      sidebarOpen := false;
      selectedProduct := None;
    }

    /** The products currently shown. */
    function Visible(): seq<Product>
      reads this
    {
      FilteredProducts(selectedCategory, selectedBrand)
    }

    /** What the grid area currently shows. */
    function Grid(): GridView
      reads this
    {
      GridOf(Visible())
    }

    /** Clicking a category in the sidebar. */
    method SelectCategory(id: string)
      modifies this
      ensures selectedCategory == id && selectedBrand == old(selectedBrand)
      ensures sidebarOpen == old(sidebarOpen) && selectedProduct == old(selectedProduct)
    {
      selectedCategory := id;
    }

    /** Clicking a brand chip. */
    method ClickBrand(brand: string)
      modifies this
      ensures selectedBrand == ToggleBrand(old(selectedBrand), brand)
      ensures selectedCategory == old(selectedCategory)
      ensures sidebarOpen == old(sidebarOpen) && selectedProduct == old(selectedProduct)
    {
      if selectedBrand == Some(brand) {
        selectedBrand := None;
      } else {
        selectedBrand := Some(brand);
      }
    }

    /** "Limpiar filtros": every category and no brand, after which the whole table is shown (`UnfilteredShowsAll`). */
    method ResetFilters()
      modifies this
      ensures selectedCategory == ALL && selectedBrand.None?
      ensures sidebarOpen == old(sidebarOpen) && selectedProduct == old(selectedProduct)
      ensures Visible() == FilteredProducts(ALL, None)
    {
      selectedCategory := ALL;
      selectedBrand := None;
    }

    /** The "Filtros" button opens the sidebar; its close button and the overlay close it. */
    method SetSidebar(open: bool)
      modifies this
      ensures sidebarOpen == open
      ensures selectedCategory == old(selectedCategory) && selectedBrand == old(selectedBrand)
      ensures selectedProduct == old(selectedProduct)
    {
      sidebarOpen := open;
    }

    /** Clicking a card opens its modal (Some); closing the modal clears it (None). */
    method SetSelectedProduct(p: Option<Product>)
      modifies this
      ensures selectedProduct == p
      ensures selectedCategory == old(selectedCategory) && selectedBrand == old(selectedBrand)
      ensures sidebarOpen == old(sidebarOpen)
    {
      selectedProduct := p;
    }
  }
}
