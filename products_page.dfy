/** The product listing page: stock labels, query defaults, price sorting, category chips and description cleanup. */
module ProductsPage {
  import opened Wrappers
  import opened JsStrings
  import opened ProductTypes
  import opened Api

  // -------------------------------------------------------------------------------
  // Stock labels

  datatype StockLabel = StockLabel(text: string, style: string)

  const OutOfStock := StockLabel("Out of Stock", "bg-red-100 text-red-600")
  const LowStock := StockLabel("Low Stock", "bg-orange-100 text-orange-600")
  const InStock := StockLabel("In Stock", "bg-emerald-100 text-emerald-600")

  /** `getStockLabel`: every quantity gets exactly one of the three labels. */
  function GetStockLabel(qty: int): (r: StockLabel)
    ensures r == OutOfStock <==> qty <= 0
    ensures r == LowStock <==> 1 <= qty <= 5
    ensures r == InStock <==> qty > 5
  {
    if qty <= 0 then OutOfStock else if qty <= 5 then LowStock else InStock
  }

  // -------------------------------------------------------------------------------
  // Query defaults

  const AllCategories := "all"
  const Newest := "newest"
  const PriceLow := "price-low"
  const PriceHigh := "price-high"

  /** `resolved.category || "all"` */
  function SelectedCategory(category: Option<string>): (r: string)
    ensures Given(category) ==> r == category.value
    ensures !Given(category) ==> r == AllCategories
    ensures r != ""
  {
    if Given(category) then category.value else AllCategories
  }

  /** `resolved.sort || "newest"` */
  function SortBy(sort: Option<string>): (r: string)
    ensures Given(sort) ==> r == sort.value
    ensures !Given(sort) ==> r == Newest
    ensures r != ""
  {
    if Given(sort) then sort.value else Newest
  }

  // -------------------------------------------------------------------------------
  // Sorting

  /** Whether `x` may come before `y`: by price, rising or (`descending`) falling. */
  predicate InOrder(x: Product, y: Product, descending: bool) {
    SortKey(x, descending) <= SortKey(y, descending)
  }

  /** The comparator's key: the price, negated for the falling order. */
  function SortKey(p: Product, descending: bool): int {
    if descending then -p.price else p.price
  }

  predicate Ordered(s: seq<Product>, descending: bool) {
    forall k, l :: 0 <= k < l < |s| ==> InOrder(s[k], s[l], descending)
  }

  /** `Array.prototype.sort` with the price comparator, as an insertion sort of adjacent swaps. */
  method SortInPlace(a: array<Product>, descending: bool)
    modifies a
    ensures Ordered(a[..], descending)
    ensures multiset(a[..]) == multiset(old(a[..]))
  {
    var i := 0;
    while i < a.Length
      invariant 0 <= i <= a.Length
      invariant Ordered(a[..i], descending)
      invariant multiset(a[..]) == multiset(old(a[..]))
    {
      Insert(a, i, descending);
      i := i + 1;
    }
    assert a[..a.Length] == a[..];
  }

  /** Moves `a[i]` left past every element it must follow, so that `a[..i + 1]` is ordered. */
  method Insert(a: array<Product>, i: nat, descending: bool)
    requires i < a.Length && Ordered(a[..i], descending)
    modifies a
    ensures Ordered(a[..i + 1], descending)
    ensures multiset(a[..]) == multiset(old(a[..]))
  {
    var j: nat := i;
    SinkStart(a[..], i, descending);
    while j > 0 && !InOrder(a[j - 1], a[j], descending)
      invariant j <= i
      invariant Sinking(a[..], i, j, descending)
      invariant multiset(a[..]) == multiset(old(a[..]))
    {
      ghost var before := a[..];
      a[j - 1], a[j] := a[j], a[j - 1];
      assert a[..] == before[j - 1 := before[j]][j := before[j - 1]];
      SinkStep(before, i, j, descending);
      j := j - 1;
    }
    SinkDone(a[..], i, j, descending);
  }

  /**
   * Halfway through inserting `s[j]` into the ordered prefix ending at `i`: all of
   * `s[..i + 1]` but position `j` is ordered, and `s[j]` may precede everything after it.
   */
  ghost predicate Sinking(s: seq<Product>, i: nat, j: nat, descending: bool) {
    && j <= i < |s|
    && (forall k, l :: 0 <= k < l <= i && k != j && l != j ==> InOrder(s[k], s[l], descending))
    && (forall l :: j < l <= i ==> InOrder(s[j], s[l], descending))
  }

  lemma SinkStart(s: seq<Product>, i: nat, descending: bool)
    requires i < |s| && Ordered(s[..i], descending)
    ensures Sinking(s, i, i, descending)
  {
    assert forall k :: 0 <= k < i ==> s[..i][k] == s[k];
  }

  /** Swapping `s[j]` with an element it must precede moves the gap one place left. */
  lemma SinkStep(s: seq<Product>, i: nat, j: nat, descending: bool)
    requires Sinking(s, i, j, descending) && 0 < j && !InOrder(s[j - 1], s[j], descending)
    ensures Sinking(s[j - 1 := s[j]][j := s[j - 1]], i, j - 1, descending)
  {
  }

  /** Once `s[j]` may follow its left neighbour, the prefix up to `i` is ordered. */
  lemma SinkDone(s: seq<Product>, i: nat, j: nat, descending: bool)
    requires Sinking(s, i, j, descending) && (j == 0 || InOrder(s[j - 1], s[j], descending))
    ensures Ordered(s[..i + 1], descending)
  {
    forall k, l | 0 <= k < l <= i ensures InOrder(s[k], s[l], descending) {
      if l == j && k < j - 1 {
        assert InOrder(s[k], s[j - 1], descending);
      }
    }
  }

  /**
   * The page's `sortedProducts`: a copy of the list, sorted in place for the two price
   * orders and left in the API's order otherwise. The input is a value and is not changed.
   */
  method SortForDisplay(products: seq<Product>, sortBy: string) returns (sorted: seq<Product>)
    ensures multiset(sorted) == multiset(products) && |sorted| == |products|
    ensures sortBy == PriceLow ==> Ordered(sorted, false)
    ensures sortBy == PriceHigh ==> Ordered(sorted, true)
    ensures sortBy != PriceLow && sortBy != PriceHigh ==> sorted == products
  {
    var a := new Product[|products|](i requires 0 <= i < |products| => products[i]);
    assert a[..] == products;
    if sortBy == PriceLow {
      SortInPlace(a, false);
    } else if sortBy == PriceHigh {
      SortInPlace(a, true);
    }
    sorted := a[..];
    assert |multiset(sorted)| == |multiset(products)|;
  }

  /** A list ordered both ways holds a single price. */
  lemma BothOrdersMeansOnePrice(s: seq<Product>)
    requires Ordered(s, false) && Ordered(s, true)
    ensures forall k, l :: 0 <= k < |s| && 0 <= l < |s| ==> s[k].price == s[l].price
  {
    forall k, l | 0 <= k < |s| && 0 <= l < |s| ensures s[k].price == s[l].price {
      if k < l {
        assert InOrder(s[k], s[l], false) && InOrder(s[k], s[l], true);
      } else if l < k {
        assert InOrder(s[l], s[k], false) && InOrder(s[l], s[k], true);
      }
    }
  }

  // -------------------------------------------------------------------------------
  // Category chips and the result count

  datatype Category = Category(name: string, slug: string)
  datatype Chip = Chip(caption: string, slug: string)

  const AllChip := Chip("All Products", AllCategories)

  /** `categoryChips`: the "All Products" chip, then one chip per category in order. */
  function CategoryChips(categories: seq<Category>): (r: seq<Chip>)
    ensures |r| == |categories| + 1 && r[0] == AllChip
    ensures forall i :: 0 <= i < |categories| ==> r[i + 1] == Chip(categories[i].name, categories[i].slug)
  {
    [AllChip] + seq(|categories|, i requires 0 <= i < |categories| => Chip(categories[i].name, categories[i].slug))
  }

  /** A chip's link: the bare listing for "all", the filtered listing otherwise. */
  function ChipHref(chip: Chip): (r: string)
    ensures chip.slug == AllCategories ==> r == "/products"
    ensures chip.slug != AllCategories ==> r == "/products?category=" + chip.slug
  {
    if chip.slug == AllCategories then "/products" else "/products?category=" + chip.slug
  }

  /** With no category in the query, the "All Products" chip is highlighted and links to the bare listing. */
  lemma DefaultHighlightsAll(categories: seq<Category>)
    ensures CategoryChips(categories)[0].slug == SelectedCategory(None)
    ensures ChipHref(CategoryChips(categories)[0]) == "/products"
  {
  }

  /** The plural ending after "Showing N result". */
  function ResultSuffix(count: nat): (r: string)
    ensures r == "" <==> count == 1
    ensures r != "" ==> r == "s"
  {
    if count != 1 then "s" else ""
  }

  // -------------------------------------------------------------------------------
  // Description cleanup

  /** The index of the first `c` in `s`. */
  function IndexOf(s: string, c: char): (k: nat)
    requires c in s
    ensures k < |s| && s[k] == c && c !in s[..k]
  {
    if s[0] == c then 0 else 1 + IndexOf(s[1..], c)
  }

  /** No `<` is followed, anywhere later, by a `>`: nothing tag-shaped is left. */
  predicate NoTags(s: string) {
    forall i, j :: 0 <= i < j < |s| ==> !(s[i] == '<' && s[j] == '>')
  }

  /**
   * `.replace(/<[^>]*>/g, "")`: from each `<` that has a `>` after it, everything up to
   * and including the first such `>` goes; a `<` without a later `>` stays.
   */
  function StripTags(s: string): (r: string)
    ensures |r| <= |s|
    ensures forall c :: c in r ==> c in s
    ensures NoTags(r)
    ensures NoTags(s) ==> r == s
    decreases |s|
  {
    if s == [] then ""
    else if s[0] == '<' && '>' in s[1..] then StripTags(s[IndexOf(s[1..], '>') + 2..])
    else
      var rest := StripTags(s[1..]);
      assert s[0] == '<' ==> '>' !in rest;
      [s[0]] + rest
  }

  /**
   * Everything before the first `<` is kept, and a first `<` whose tag closes at the
   * first `>` after it is removed together with that tag. With `NoTags(s) ==> r == s`
   * this determines `StripTags` on every input.
   */
  lemma {:induction false} StripTagsFirstTag(a: string, t: string, b: string)
    requires '<' !in a && '>' !in t
    ensures StripTags(a + ['<'] + t + ['>'] + b) == a + StripTags(b)
  {
    var tag := ['<'] + t + ['>'] + b;
    assert a + ['<'] + t + ['>'] + b == a + tag;
    StripTagsKeepsPrefix(a, tag);
    StripTagsAtTag(t, b);
  }

  /** A prefix without `<` is kept as it is. */
  lemma {:induction false} StripTagsKeepsPrefix(a: string, s: string)
    requires '<' !in a
    ensures StripTags(a + s) == a + StripTags(s)
  {
    if a != [] {
      StripTagsKeepsPrefix(a[1..], s);
      StripTagsPrefixStep(a[0], a[1..], s);
      assert a == [a[0]] + a[1..];
    } else {
      assert a + s == s;
    }
  }

  /** A tag at the front goes, up to and including its first `>`. */
  lemma StripTagsAtTag(t: string, b: string)
    requires '>' !in t
    ensures StripTags(['<'] + t + ['>'] + b) == StripTags(b)
  {
    var s := ['<'] + t + ['>'] + b;
    var rest := t + ['>'] + b;
    assert s[1..] == rest;
    assert rest[|t|] == '>' && rest[..|t|] == t;
    IndexOfFirst(rest, '>', |t|);
    assert s[|t| + 2..] == b;
  }

  /** The step of `StripTagsKeepsPrefix`: one more kept character in front. */
  lemma StripTagsPrefixStep(c: char, a: string, s: string)
    requires c != '<' && StripTags(a + s) == a + StripTags(s)
    ensures StripTags([c] + a + s) == [c] + a + StripTags(s)
  {
    ConcatAssoc([c], a, s);
    StripTagsKeepsHead(c, a + s);
    ConcatAssoc([c], a, StripTags(s));
  }

  /** A first character other than `<` is kept. */
  lemma StripTagsKeepsHead(c: char, s: string)
    requires c != '<'
    ensures StripTags([c] + s) == [c] + StripTags(s)
  {
    assert ([c] + s)[1..] == s;
  }

  /** A position holding `c` with no `c` before it is the first index of `c`. */
  lemma IndexOfFirst(s: string, c: char, k: nat)
    requires k < |s| && s[k] == c && c !in s[..k]
    ensures IndexOf(s, c) == k
  {
  }

  /** `s` starts with `&nbsp;` in some letter case, as `/&nbsp;/i` matches it. */
  predicate StartsNbsp(s: string) {
    && |s| >= 6 && s[0] == '&' && LowerChar(s[1]) == 'n' && LowerChar(s[2]) == 'b'
    && LowerChar(s[3]) == 's' && LowerChar(s[4]) == 'p' && s[5] == ';'
  }

  /** `.replace(/&nbsp;/gi, " ")` */
  function ReplaceNbsp(s: string): (r: string)
    ensures |r| <= |s|
    ensures '&' !in s ==> r == s
  {
    if StartsNbsp(s) then " " + ReplaceNbsp(s[6..])
    else if s == [] then ""
    else [s[0]] + ReplaceNbsp(s[1..])
  }

  /** No two neighbouring characters are both whitespace. */
  predicate NoRuns(s: string) {
    forall i :: 0 <= i < |s| - 1 ==> !(IsSpace(s[i]) && IsSpace(s[i + 1]))
  }

  /** The only whitespace left is the plain space. */
  predicate PlainSpaces(s: string) {
    forall i :: 0 <= i < |s| ==> IsSpace(s[i]) ==> s[i] == ' '
  }

  /** `.replace(/\s+/g, " ")`: each maximal run of whitespace becomes one space. */
  function CollapseSpaces(s: string): (r: string)
    ensures r == [] <==> s == []
    ensures s != [] ==> (IsSpace(r[0]) <==> IsSpace(s[0]))
    ensures s != [] && !IsSpace(s[0]) ==> r[0] == s[0]
    ensures NoRuns(r) && PlainSpaces(r)
    ensures NoSpaces(s) ==> r == s
    decreases |s|
  {
    if s == [] then ""
    else if IsSpace(s[0]) then
      var rest := TrimStart(s);
      assert rest == [] || !IsSpace(rest[0]);
      " " + CollapseSpaces(rest)
    else [s[0]] + CollapseSpaces(s[1..])
  }

  /**
   * Non-space characters before the first whitespace run stay as they are, and that run
   * becomes one space. With `NoSpaces(s) ==> r == s` this determines `CollapseSpaces` on
   * every input.
   */
  lemma CollapseFirstRun(a: string, w: string, b: string)
    requires NoSpaces(a) && w != [] && AllSpaces(w) && (b == [] || !IsSpace(b[0]))
    ensures CollapseSpaces(a + w + b) == a + " " + CollapseSpaces(b)
  {
    var run := w + b;
    ConcatAssoc(a, w, b);
    CollapseKeepsPrefix(a, run);
    CollapseAtRun(w, b);
    ConcatAssoc(a, " ", CollapseSpaces(b));
  }

  /** Concatenation is associative. */
  lemma ConcatAssoc<T>(x: seq<T>, y: seq<T>, z: seq<T>)
    ensures x + (y + z) == x + y + z
  {
  }

  /** A prefix without whitespace is kept as it is. */
  lemma {:induction false} CollapseKeepsPrefix(a: string, s: string)
    requires NoSpaces(a)
    ensures CollapseSpaces(a + s) == a + CollapseSpaces(s)
  {
    if a != [] {
      assert !IsSpace(a[0]) && NoSpaces(a[1..]);
      CollapseKeepsPrefix(a[1..], s);
      CollapsePrefixStep(a[0], a[1..], s);
      assert a == [a[0]] + a[1..];
    } else {
      assert a + s == s;
    }
  }

  /** The step of `CollapseKeepsPrefix`: one more kept character in front. */
  lemma CollapsePrefixStep(c: char, a: string, s: string)
    requires !IsSpace(c) && CollapseSpaces(a + s) == a + CollapseSpaces(s)
    ensures CollapseSpaces([c] + a + s) == [c] + a + CollapseSpaces(s)
  {
    ConcatAssoc([c], a, s);
    CollapseKeepsHead(c, a + s);
    ConcatAssoc([c], a, CollapseSpaces(s));
  }

  /** A leading whitespace run before a non-space becomes one space. */
  lemma CollapseAtRun(w: string, b: string)
    requires w != [] && AllSpaces(w) && (b == [] || !IsSpace(b[0]))
    ensures CollapseSpaces(w + b) == " " + CollapseSpaces(b)
  {
    assert (w + b)[0] == w[0];
    TrimStartRun(w, b);
  }

  /** A first character that is not whitespace is kept. */
  lemma CollapseKeepsHead(c: char, s: string)
    requires !IsSpace(c)
    ensures CollapseSpaces([c] + s) == [c] + CollapseSpaces(s)
  {
    assert ([c] + s)[1..] == s;
  }

  /** `trimStart` removes exactly a leading whitespace run before a non-space. */
  lemma TrimStartRun(w: string, b: string)
    requires AllSpaces(w) && (b == [] || !IsSpace(b[0]))
    ensures TrimStart(w + b) == b
  {
    var s := w + b;
    assert s[..|w|] == w;
    if b != [] {
      assert s[|w|] == b[0];
    }
    LeadingSpacesAt(s, |w|);
    assert s[|w|..] == b;
  }

  /**
   * An entity `&nbsp;` in any letter case, with no `&` before it, becomes one space and
   * what precedes it is kept.
   */
  lemma ReplaceNbspFirst(a: string, e: string, b: string)
    requires '&' !in a && |e| == 6 && StartsNbsp(e)
    ensures ReplaceNbsp(a + e + b) == a + " " + ReplaceNbsp(b)
  {
    var tail := e + b;
    assert a + e + b == a + tail;
    ReplaceNbspKeepsPrefix(a, tail);
    assert tail[..6] == e && tail[6..] == b;
  }

  /**
   * An `&` that does not begin `&nbsp;`, with no `&` before it, is kept with what
   * precedes it. With `ReplaceNbspFirst` and the `&`-free case this determines
   * `ReplaceNbsp` on every input.
   */
  lemma ReplaceNbspStray(a: string, b: string)
    requires '&' !in a && !StartsNbsp("&" + b)
    ensures ReplaceNbsp(a + "&" + b) == a + "&" + ReplaceNbsp(b)
  {
    var tail := "&" + b;
    assert a + "&" + b == a + tail;
    ReplaceNbspKeepsPrefix(a, tail);
    ReplaceNbspAtStray(b);
  }

  /** A prefix without `&` is kept as it is. */
  lemma {:induction false} ReplaceNbspKeepsPrefix(a: string, s: string)
    requires '&' !in a
    ensures ReplaceNbsp(a + s) == a + ReplaceNbsp(s)
  {
    if a != [] {
      ReplaceNbspKeepsPrefix(a[1..], s);
      ReplaceNbspPrefixStep(a[0], a[1..], s);
      assert a == [a[0]] + a[1..];
    } else {
      assert a + s == s;
    }
  }

  /** The step of `ReplaceNbspKeepsPrefix`: one more kept character in front. */
  lemma ReplaceNbspPrefixStep(c: char, a: string, s: string)
    requires c != '&' && ReplaceNbsp(a + s) == a + ReplaceNbsp(s)
    ensures ReplaceNbsp([c] + a + s) == [c] + a + ReplaceNbsp(s)
  {
    ConcatAssoc([c], a, s);
    ReplaceNbspKeepsHead(c, a + s);
    ConcatAssoc([c], a, ReplaceNbsp(s));
  }

  /** A first character other than `&` is kept. */
  lemma ReplaceNbspKeepsHead(c: char, s: string)
    requires c != '&'
    ensures ReplaceNbsp([c] + s) == [c] + ReplaceNbsp(s)
  {
    assert ([c] + s)[1..] == s;
  }

  /** A leading `&` that does not start `&nbsp;` is kept. */
  lemma ReplaceNbspAtStray(b: string)
    requires !StartsNbsp("&" + b)
    ensures ReplaceNbsp("&" + b) == "&" + ReplaceNbsp(b)
  {
    assert ("&" + b)[1..] == b;
  }

  /** An infix of a string keeps its neighbour and space properties. */
  lemma InfixKeeps(s: string, i: nat, t: string)
    requires i + |t| <= |s| && t == s[i..i + |t|] && NoRuns(s) && PlainSpaces(s)
    ensures NoRuns(t) && PlainSpaces(t)
  {
    assert forall k :: 0 <= k < |t| ==> t[k] == s[i + k];
  }

  /** Trimming a string with single plain spaces keeps it that way. */
  lemma TrimKeeps(c: string)
    requires NoRuns(c) && PlainSpaces(c)
    ensures NoRuns(Trim(c)) && PlainSpaces(Trim(c))
  {
    InfixKeeps(c, LeadingSpaces(c), Trim(c));
  }

  const DescriptionFallback := "Health product"

  lemma FallbackShape()
    ensures NoRuns(DescriptionFallback) && PlainSpaces(DescriptionFallback)
    ensures !IsSpace(DescriptionFallback[0]) && !IsSpace(DescriptionFallback[|DescriptionFallback| - 1])
  {
    assert forall i :: 0 <= i < |DescriptionFallback| && i != 6 ==> !IsSpace(DescriptionFallback[i]);
  }

  /** The card's description text: cleaned when the product has a non-empty one, a fallback otherwise. */
  function CleanDescription(description: Option<string>): (r: string)
    ensures !Given(description) ==> r == DescriptionFallback
    ensures Given(description) ==>
              r == Trim(CollapseSpaces(ReplaceNbsp(StripTags(description.value))))
    ensures r == [] || (!IsSpace(r[0]) && !IsSpace(r[|r| - 1]))
    ensures NoRuns(r) && PlainSpaces(r)
  {
    if Given(description) then
      var c := CollapseSpaces(ReplaceNbsp(StripTags(description.value)));
      TrimKeeps(c);
      Trim(c)
    else
      FallbackShape();
      DescriptionFallback
  }
}
