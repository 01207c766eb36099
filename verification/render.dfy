/** The menu body (`render` and `formatPrice`): the display tree built from a
    parsed menu document. The functions here are the specification of what
    `render` appends; the methods build rows and cards step by step, the way
    the script does, and are proved to build exactly that. */
module Render {
  import opened Js
  import opened Dom

  /** What the page's JavaScript host supplies and this model cannot see:
      `numberFormat(v, c)` is `new Intl.NumberFormat('tr-TR', {style:
      'currency', currency: c, maximumFractionDigits: 2}).format(v)`, `None`
      when it throws (an unknown currency code, say); `toText` is the string
      conversion a template literal applies. */
  datatype Host = Host(
    numberFormat: (Number, Value) -> Option<string>,
    toText: Value -> string)

  /** `formatPrice`: the locale format of the price, or `"<value> <currency>"`
      when the formatter throws; a falsy currency means TRY. */
  function FormatPrice(host: Host, value: Number, currency: Value): (r: string)
    ensures var code := Or(currency, Str("TRY"));
      match host.numberFormat(value, code)
      case Some(formatted) => r == formatted
      case None => r == host.toText(Num(value)) + " " + host.toText(code)
  {
    var code := Or(currency, Str("TRY"));
    match host.numberFormat(value, code)
    case Some(formatted) => formatted
    case None => host.toText(Num(value)) + " " + host.toText(code)
  }

  const EmptyMessage: string := "Kategori bulunamadı."

  /** The placeholder shown when the document has no categories. */
  const EmptyState: Node := Leaf("div", "empty", Str(EmptyMessage))

  /** `menuData?.restaurant?.currency || 'TRY'`. */
  function CurrencyOf(doc: Value): (r: Value)
    ensures Truthy(r)
    ensures Truthy(Field(Field(doc, "restaurant"), "currency")) ==>
      r == Field(Field(doc, "restaurant"), "currency")
    ensures !Truthy(Field(Field(doc, "restaurant"), "currency")) ==> r == Str("TRY")
  {
    Or(Field(Field(doc, "restaurant"), "currency"), Str("TRY"))
  }

  /** `Array.isArray(v) ? v : []`. */
  function ArrayOrEmpty(v: Value): (r: seq<Value>)
    ensures v.Arr? ==> r == v.elems
    ensures !v.Arr? ==> r == []
  {
    if v.Arr? then v.elems else []
  }

  function CategoriesOf(doc: Value): seq<Value> {
    ArrayOrEmpty(Field(doc, "categories"))
  }

  function ItemsOf(cat: Value): seq<Value> {
    ArrayOrEmpty(Field(cat, "items"))
  }

  // ---- one item row ----

  /** An item whose `image` is truthy but not a string: `item.image.trim()`
      throws a TypeError and the render is abandoned. */
  predicate ItemThrows(item: Value) {
    TrimTest(Field(item, "image")) == Throws
  }

  function TagSpan(t: Value): Node {
    Leaf("span", "tag", t)
  }

  function TagSpans(tags: seq<Value>): (r: seq<Node>)
    ensures |r| == |tags|
    ensures forall j :: 0 <= j < |tags| ==> r[j] == TagSpan(tags[j])
  {
    seq(|tags|, j requires 0 <= j < |tags| => TagSpan(tags[j]))
  }

  /** The image wrapper, present only for an image that is non-blank after
      trimming; the `img` source is the trimmed string. */
  function ImageBlock(item: Value): (r: seq<Node>)
    requires !ItemThrows(item)
    ensures |r| == if TrimTest(Field(item, "image")) == NonBlank then 1 else 0
    ensures r != [] ==>
      && r[0].className == "item-image-wrapper"
      && |r[0].children| == 1
      && r[0].children[0].className == "item-image"
      && r[0].children[0].children == []
      && "src" in r[0].children[0].attrs
      && r[0].children[0].attrs["src"] == Str(Trim(Field(item, "image").s))
  {
    var image := Field(item, "image");
    if TrimTest(image) == NonBlank then
      var img := Node("img", "item-image", None,
        map["src" := Str(Trim(image.s)), "alt" := Or(Field(item, "name"), Str(""))], []);
      [Box("div", "item-image-wrapper", [img])]
    else []
  }

  function NameNode(item: Value): Node {
    Leaf("div", "item-name", Or(Field(item, "name"), Str("")))
  }

  /** The price text: formatted only when the price is of type number. */
  function PriceText(item: Value, currency: Value, host: Host): (r: string)
    ensures Field(item, "price").Num? ==>
      r == FormatPrice(host, Field(item, "price").n, currency)
    ensures !Field(item, "price").Num? ==> r == ""
  {
    var price := Field(item, "price");
    if price.Num? then FormatPrice(host, price.n, currency) else ""
  }

  function PriceNode(item: Value, currency: Value, host: Host): Node {
    Leaf("div", "item-price", Str(PriceText(item, currency, host)))
  }

  function ItemDesc(item: Value): (r: seq<Node>)
    ensures |r| <= 1
  {
    var desc := Field(item, "desc");
    if Truthy(desc) then [Leaf("div", "item-desc", desc)] else []
  }

  /** The tag block, present only when `tags` is a non-empty array. */
  function TagsBlock(item: Value): (r: seq<Node>)
    ensures |r| <= 1
  {
    var tags := Field(item, "tags");
    if tags.Arr? && |tags.elems| > 0 then [Box("div", "item-tags", TagSpans(tags.elems))]
    else []
  }

  function ItemContent(item: Value, currency: Value, host: Host): Node {
    Box("div", "item-content",
      [NameNode(item), PriceNode(item, currency, host)] + ItemDesc(item) + TagsBlock(item))
  }

  /** The row of one item, or `None` when building it throws. */
  function ItemRow(item: Value, currency: Value, host: Host): (r: Option<Node>)
    ensures r.None? <==> ItemThrows(item)
    ensures r.Some? ==> r.value.className == "item"
  {
    if ItemThrows(item) then None
    else Some(Box("div", "item", ImageBlock(item) + [ItemContent(item, currency, host)]))
  }

  /** The inner loop of `render` over an item's tags: one span per tag, in
      order. */
  method BuildTagSpans(tags: seq<Value>) returns (spans: seq<Node>)
    ensures spans == TagSpans(tags)
  {
    spans := [];
    var i := 0;
    while i < |tags|
      invariant 0 <= i <= |tags|
      invariant spans == TagSpans(tags[..i])
    {
      assert tags[..i + 1] == tags[..i] + [tags[i]];
      spans := spans + [Leaf("span", "tag", tags[i])];
      i := i + 1;
    }
    assert tags[..i] == tags;
  }

  /** Builds one row as the loop body of `render` does. */
  method BuildItemRow(item: Value, currency: Value, host: Host) returns (row: Option<Node>)
    ensures row == ItemRow(item, currency, host)
  {
    var children: seq<Node> := [];
    var image := Field(item, "image");
    var check := TrimTest(image);
    if check == Throws {
      return None;
    }
    if check == NonBlank {
      var imageUrl := Trim(image.s);
      var img := Node("img", "item-image", None,
        map["src" := Str(imageUrl), "alt" := Or(Field(item, "name"), Str(""))], []);
      children := children + [Box("div", "item-image-wrapper", [img])];
    }
    assert children == ImageBlock(item);
    var content := BuildItemContent(item, currency, host);
    children := children + [content];
    row := Some(Box("div", "item", children));
  }

  /** The content part of a row: name, price, then the optional description
      and tags, appended in that order. */
  method BuildItemContent(item: Value, currency: Value, host: Host) returns (content: Node)
    ensures content == ItemContent(item, currency, host)
  {
    var parts: seq<Node> := [];
    parts := parts + [Leaf("div", "item-name", Or(Field(item, "name"), Str("")))];
    var price := Field(item, "price");
    var priceText := if price.Num? then FormatPrice(host, price.n, currency) else "";
    parts := parts + [Leaf("div", "item-price", Str(priceText))];
    assert parts == [NameNode(item), PriceNode(item, currency, host)];
    var desc := Field(item, "desc");
    if Truthy(desc) {
      parts := parts + [Leaf("div", "item-desc", desc)];
    }
    assert parts == [NameNode(item), PriceNode(item, currency, host)] + ItemDesc(item);
    var tags := Field(item, "tags");
    if tags.Arr? && |tags.elems| > 0 {
      var spans := BuildTagSpans(tags.elems);
      parts := parts + [Box("div", "item-tags", spans)];
    }
    content := Box("div", "item-content", parts);
  }

  // ---- one category card ----

  function CategoryTitle(cat: Value): Node {
    Leaf("h2", "category-title", Or(Field(cat, "name"), Str("Kategori")))
  }

  function CategoryDesc(cat: Value): (r: seq<Node>)
    ensures |r| <= 1
  {
    var desc := Field(cat, "description");
    if Truthy(desc) then [Leaf("div", "category-desc", desc)] else []
  }

  predicate CardThrows(cat: Value) {
    exists j :: 0 <= j < |ItemsOf(cat)| && ItemThrows(ItemsOf(cat)[j])
  }

  /** The rows of a list of items none of which throws, one per item, in order. */
  function Rows(items: seq<Value>, currency: Value, host: Host): (r: seq<Node>)
    requires forall j :: 0 <= j < |items| ==> !ItemThrows(items[j])
    ensures |r| == |items|
    ensures forall j :: 0 <= j < |items| ==> Some(r[j]) == ItemRow(items[j], currency, host)
  {
    seq(|items|, j requires 0 <= j < |items| => ItemRow(items[j], currency, host).value)
  }

  lemma RowsSnoc(items: seq<Value>, k: nat, currency: Value, host: Host)
    requires k < |items|
    requires forall j :: 0 <= j <= k ==> !ItemThrows(items[j])
    ensures Rows(items[..k + 1], currency, host)
         == Rows(items[..k], currency, host) + [ItemRow(items[k], currency, host).value]
  {
    var longer := Rows(items[..k + 1], currency, host);
    var shorter := Rows(items[..k], currency, host);
    var last := ItemRow(items[k], currency, host).value;
    forall j | 0 <= j <= k ensures longer[j] == (shorter + [last])[j] {
      if j < k {
        assert items[..k + 1][j] == items[..k][j];
      }
    }
  }

  /** The card of one category, or `None` when one of its rows throws. */
  function CategoryCard(cat: Value, currency: Value, host: Host): (r: Option<Node>)
    ensures r.None? <==> CardThrows(cat)
    ensures r.Some? ==> r.value.className == "category-card"
  {
    if CardThrows(cat) then None
    else
      Some(Box("section", "category-card",
        [CategoryTitle(cat)] + CategoryDesc(cat) + Rows(ItemsOf(cat), currency, host)))
  }

  /** Builds one card: title, optional description, then one row per item. */
  method BuildCategoryCard(cat: Value, currency: Value, host: Host) returns (card: Option<Node>)
    ensures card == CategoryCard(cat, currency, host)
  {
    var children: seq<Node> := [];
    children := children + [Leaf("h2", "category-title", Or(Field(cat, "name"), Str("Kategori")))];
    var desc := Field(cat, "description");
    if Truthy(desc) {
      children := children + [Leaf("div", "category-desc", desc)];
    }
    assert children == [CategoryTitle(cat)] + CategoryDesc(cat);
    var items := ArrayOrEmpty(Field(cat, "items"));
    var rows: seq<Node> := [];
    var i := 0;
    while i < |items|
      invariant 0 <= i <= |items|
      invariant forall j :: 0 <= j < i ==> !ItemThrows(items[j])
      invariant rows == Rows(items[..i], currency, host)
    {
      var row := BuildItemRow(items[i], currency, host);
      if row.None? {
        assert ItemThrows(ItemsOf(cat)[i]);
        return None;
      }
      RowsSnoc(items, i, currency, host);
      rows := rows + [row.value];
      i := i + 1;
    }
    assert items[..i] == items;
    card := Some(Box("section", "category-card", children + rows));
  }

  // ---- the whole body ----

  /** How many categories `render` completes before one throws. */
  function FirstThrow(cats: seq<Value>, currency: Value, host: Host): (k: nat)
    ensures k <= |cats|
    ensures forall j :: 0 <= j < k ==> !CardThrows(cats[j])
    ensures k < |cats| ==> CardThrows(cats[k])
    decreases |cats|
  {
    if cats == [] then 0
    else if CardThrows(cats[0]) then 0
    else 1 + FirstThrow(cats[1..], currency, host)
  }

  /** `render` stops at index `i` exactly when every earlier category
      renders and the one at `i` throws, or `i` is the end: the stopping
      index is unique, as `FirstThrow`'s contract already pins it. */
  lemma FirstThrowAt(cats: seq<Value>, i: nat, currency: Value, host: Host)
    requires i <= |cats|
    requires forall j :: 0 <= j < i ==> !CardThrows(cats[j])
    requires i < |cats| ==> CardThrows(cats[i])
    ensures FirstThrow(cats, currency, host) == i
  {
  }

  /** The cards of categories none of which throws, one per category. */
  function Cards(cats: seq<Value>, currency: Value, host: Host): (r: seq<Node>)
    requires forall j :: 0 <= j < |cats| ==> !CardThrows(cats[j])
    ensures |r| == |cats|
    ensures forall j :: 0 <= j < |cats| ==> Some(r[j]) == CategoryCard(cats[j], currency, host)
  {
    seq(|cats|, j requires 0 <= j < |cats| => CategoryCard(cats[j], currency, host).value)
  }

  lemma CardsSnoc(cats: seq<Value>, k: nat, currency: Value, host: Host)
    requires k < |cats|
    requires forall j :: 0 <= j <= k ==> !CardThrows(cats[j])
    ensures Cards(cats[..k + 1], currency, host)
         == Cards(cats[..k], currency, host) + [CategoryCard(cats[k], currency, host).value]
  {
    assert cats[..k + 1] == cats[..k] + [cats[k]];
  }

  /** What `render(doc)` leaves in the categories container, and whether it
      returned normally (`false`: a TypeError escaped after the cards of the
      categories before the failing one had been appended). The container
      holds the cards of exactly the categories before the first one that
      throws. */
  function Rendered(doc: Value, host: Host): (r: (seq<Node>, bool))
    ensures CategoriesOf(doc) == [] ==> r == ([EmptyState], true)
    ensures CategoriesOf(doc) != [] ==>
      var cats := CategoriesOf(doc);
      && (r.1 <==> forall j :: 0 <= j < |cats| ==> !CardThrows(cats[j]))
      && |r.0| == FirstThrow(cats, CurrencyOf(doc), host)
      && (r.1 ==> |r.0| == |cats|)
      && (forall j :: 0 <= j < |r.0| ==> Some(r.0[j]) == CategoryCard(cats[j], CurrencyOf(doc), host))
  {
    var cats := CategoriesOf(doc);
    if cats == [] then ([EmptyState], true)
    else
      var k := FirstThrow(cats, CurrencyOf(doc), host);
      (Cards(cats[..k], CurrencyOf(doc), host), k == |cats|)
  }
}
