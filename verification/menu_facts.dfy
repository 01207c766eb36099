/** What a reader finds in a rendered category card and in the whole
    categories container: the card's title and description, one row per item
    with its name and price, one card per category, the empty-state message,
    and how many item rows the page shows in all. */
module MenuFacts {
  import opened Js
  import opened Dom
  import opened Render
  import opened RenderFacts

  // ---- rows of a card ----

  /** A class no row uses finds nothing among a card's rows. */
  lemma RowsForeign(items: seq<Value>, currency: Value, host: Host, cls: string)
    requires forall j :: 0 <= j < |items| ==> !ItemThrows(items[j])
    requires !RowClass(cls)
    ensures Select(Rows(items, currency, host), cls) == []
  {
    var rows := Rows(items, currency, host);
    forall j | 0 <= j < |rows| ensures Select([rows[j]], cls) == [] {
      RowForeign(items[j], currency, host, cls);
    }
    SelectNoneInTrees(rows, cls);
  }

  /** The query for `item` finds exactly the rows, in order. */
  lemma RowsItself(items: seq<Value>, currency: Value, host: Host)
    requires forall j :: 0 <= j < |items| ==> !ItemThrows(items[j])
    ensures Select(Rows(items, currency, host), "item") == Rows(items, currency, host)
  {
    var rows := Rows(items, currency, host);
    forall j | 0 <= j < |rows| ensures Select([rows[j]], "item") == [rows[j]] {
      RowItself(items[j], currency, host);
    }
    SelectOnePerTree(rows, "item", rows);
  }

  /** The name elements of the rows, one per item, in item order. */
  lemma RowsNamesNodes(items: seq<Value>, currency: Value, host: Host)
    requires forall j :: 0 <= j < |items| ==> !ItemThrows(items[j])
    ensures Select(Rows(items, currency, host), "item-name") ==
      seq(|items|, j requires 0 <= j < |items| => NameNode(items[j]))
  {
    var rows := Rows(items, currency, host);
    var names := seq(|items|, j requires 0 <= j < |items| => NameNode(items[j]));
    forall j | 0 <= j < |rows| ensures Select([rows[j]], "item-name") == [names[j]] {
      RowPart(items[j], currency, host, "item-name", 1);
      SelectLeaf(NameNode(items[j]), "item-name");
    }
    SelectOnePerTree(rows, "item-name", names);
  }

  /** The names of the rows, one per item, in item order. */
  lemma RowsNames(items: seq<Value>, currency: Value, host: Host)
    requires forall j :: 0 <= j < |items| ==> !ItemThrows(items[j])
    ensures Texts(Select(Rows(items, currency, host), "item-name")) ==
      seq(|items|, j requires 0 <= j < |items| => Some(Or(Field(items[j], "name"), Str(""))))
  {
    RowsNamesNodes(items, currency, host);
  }

  /** The price elements of the rows, one per item, in item order. */
  lemma RowsPricesNodes(items: seq<Value>, currency: Value, host: Host)
    requires forall j :: 0 <= j < |items| ==> !ItemThrows(items[j])
    ensures Select(Rows(items, currency, host), "item-price") ==
      seq(|items|, j requires 0 <= j < |items| => PriceNode(items[j], currency, host))
  {
    var rows := Rows(items, currency, host);
    var prices := seq(|items|, j requires 0 <= j < |items| => PriceNode(items[j], currency, host));
    forall j | 0 <= j < |rows| ensures Select([rows[j]], "item-price") == [prices[j]] {
      RowPart(items[j], currency, host, "item-price", 2);
      SelectLeaf(PriceNode(items[j], currency, host), "item-price");
    }
    SelectOnePerTree(rows, "item-price", prices);
  }

  /** The prices of the rows, one per item, in item order. */
  lemma RowsPrices(items: seq<Value>, currency: Value, host: Host)
    requires forall j :: 0 <= j < |items| ==> !ItemThrows(items[j])
    ensures Texts(Select(Rows(items, currency, host), "item-price")) ==
      seq(|items|, j requires 0 <= j < |items| => Some(Str(PriceText(items[j], currency, host))))
  {
    RowsPricesNodes(items, currency, host);
  }

  // ---- one card ----

  /** A query over an element whose children are one leading element, an
      optional part and a list of rows. */
  lemma SelectThreeParts(card: Node, t: Node, d: seq<Node>, rows: seq<Node>, cls: string)
    requires card.children == [t] + d + rows
    requires card.className != cls
    ensures Select([card], cls) == Select([t], cls) + Select(d, cls) + Select(rows, cls)
  {
    SelectSingle(card, cls);
    SelectAppend([t] + d, rows, cls);
    SelectAppend([t], d, cls);
  }

  /** The layout of a card that renders: title, optional description, rows. */
  lemma CardLayout(cat: Value, currency: Value, host: Host)
    requires !CardThrows(cat)
    ensures forall j :: 0 <= j < |ItemsOf(cat)| ==> !ItemThrows(ItemsOf(cat)[j])
    ensures var card := CategoryCard(cat, currency, host).value;
      && card.className == "category-card"
      && card.children == [CategoryTitle(cat)] + CategoryDesc(cat) + Rows(ItemsOf(cat), currency, host)
  {
  }

  /** A query for any class but the card's own finds what the title, the
      description and the rows find, in that order. */
  lemma CardSelect(cat: Value, currency: Value, host: Host, cls: string)
    requires !CardThrows(cat)
    requires cls != "category-card"
    ensures Select([CategoryCard(cat, currency, host).value], cls) ==
      Select([CategoryTitle(cat)], cls) + Select(CategoryDesc(cat), cls) + Select(Rows(ItemsOf(cat), currency, host), cls)
  {
    CardLayout(cat, currency, host);
    SelectThreeParts(CategoryCard(cat, currency, host).value, CategoryTitle(cat), CategoryDesc(cat),
      Rows(ItemsOf(cat), currency, host), cls);
  }

  /** The title and the description answer only the query for their own
      class, and the rows none that no row uses. */
  lemma CardPartsSilent(cat: Value, currency: Value, host: Host, cls: string)
    requires !CardThrows(cat)
    ensures Select([CategoryTitle(cat)], cls) == if cls == "category-title" then [CategoryTitle(cat)] else []
    ensures Select(CategoryDesc(cat), cls) == if cls == "category-desc" then CategoryDesc(cat) else []
    ensures !RowClass(cls) ==> Select(Rows(ItemsOf(cat), currency, host), cls) == []
  {
    SelectLeaf(CategoryTitle(cat), cls);
    SelectOptionalLeaf(CategoryDesc(cat), cls);
    if !RowClass(cls) {
      CardLayout(cat, currency, host);
      RowsForeign(ItemsOf(cat), currency, host, cls);
    }
  }

  /** Every card holds exactly one title: the category's `name`, or
      `Kategori` when the name is falsy. */
  lemma CardTitle(cat: Value, currency: Value, host: Host)
    requires !CardThrows(cat)
    ensures var card := CategoryCard(cat, currency, host).value;
      Texts(Select([card], "category-title")) == [Some(Or(Field(cat, "name"), Str("Kategori")))]
  {
    CardSelect(cat, currency, host, "category-title");
    CardPartsSilent(cat, currency, host, "category-title");
  }

  /** A card holds a category description iff `description` is truthy, with
      that text. */
  lemma CardDesc(cat: Value, currency: Value, host: Host)
    requires !CardThrows(cat)
    ensures var card := CategoryCard(cat, currency, host).value;
      var desc := Field(cat, "description");
      Texts(Select([card], "category-desc")) == if Truthy(desc) then [Some(desc)] else []
  {
    assert Select([CategoryCard(cat, currency, host).value], "category-desc") == CategoryDesc(cat) by {
      CardSelect(cat, currency, host, "category-desc");
      CardPartsSilent(cat, currency, host, "category-desc");
    }
  }

  /** A card holds one row per item of its category, in order: the rows
      `Rows` describes. */
  lemma CardRows(cat: Value, currency: Value, host: Host)
    requires !CardThrows(cat)
    ensures var card := CategoryCard(cat, currency, host).value;
      && Select([card], "item") == Rows(ItemsOf(cat), currency, host)
      && |Select([card], "item")| == |ItemsOf(cat)|
  {
    CardSelect(cat, currency, host, "item");
    CardPartsSilent(cat, currency, host, "item");
    CardLayout(cat, currency, host);
    RowsItself(ItemsOf(cat), currency, host);
  }

  /** The item names a card shows, one per item, in order. */
  lemma CardNames(cat: Value, currency: Value, host: Host)
    requires !CardThrows(cat)
    ensures var card := CategoryCard(cat, currency, host).value;
      var items := ItemsOf(cat);
      Texts(Select([card], "item-name")) ==
        seq(|items|, j requires 0 <= j < |items| => Some(Or(Field(items[j], "name"), Str(""))))
  {
    CardSelect(cat, currency, host, "item-name");
    CardPartsSilent(cat, currency, host, "item-name");
    CardLayout(cat, currency, host);
    RowsNames(ItemsOf(cat), currency, host);
  }

  /** The prices a card shows, one per item, in order: the formatted price
      for numeric prices and `''` otherwise. */
  lemma CardPrices(cat: Value, currency: Value, host: Host)
    requires !CardThrows(cat)
    ensures var card := CategoryCard(cat, currency, host).value;
      var items := ItemsOf(cat);
      Texts(Select([card], "item-price")) ==
        seq(|items|, j requires 0 <= j < |items| => Some(Str(PriceText(items[j], currency, host))))
  {
    CardSelect(cat, currency, host, "item-price");
    CardPartsSilent(cat, currency, host, "item-price");
    CardLayout(cat, currency, host);
    RowsPrices(ItemsOf(cat), currency, host);
  }

  /** A card is the only card inside itself. */
  lemma CardItself(cat: Value, currency: Value, host: Host)
    requires !CardThrows(cat)
    ensures var card := CategoryCard(cat, currency, host).value;
      Select([card], "category-card") == [card]
  {
    var cls := "category-card";
    CardLayout(cat, currency, host);
    var card := CategoryCard(cat, currency, host).value;
    var rows := Rows(ItemsOf(cat), currency, host);
    SelectSingle(card, cls);
    SelectAppend([CategoryTitle(cat)] + CategoryDesc(cat), rows, cls);
    SelectAppend([CategoryTitle(cat)], CategoryDesc(cat), cls);
    assert Select([CategoryTitle(cat)], cls) == [] by { SelectLeaf(CategoryTitle(cat), cls); }
    assert Select(CategoryDesc(cat), cls) == [] by { SelectOptionalLeaf(CategoryDesc(cat), cls); }
    assert Select(rows, cls) == [] by { RowsForeign(ItemsOf(cat), currency, host, cls); }
  }

  /** A card holds no empty-state message. */
  lemma CardNotEmpty(cat: Value, currency: Value, host: Host)
    requires !CardThrows(cat)
    ensures Select([CategoryCard(cat, currency, host).value], "empty") == []
  {
    CardSelect(cat, currency, host, "empty");
    CardPartsSilent(cat, currency, host, "empty");
  }

  // ---- the whole container ----

  /** The number of items over a list of categories. */
  function ItemTotal(cats: seq<Value>): nat
    decreases |cats|
  {
    if cats == [] then 0 else |ItemsOf(cats[0])| + ItemTotal(cats[1..])
  }

  /** Cards that stand for a list of categories, one each, in order. */
  predicate CardsOf(cards: seq<Node>, cats: seq<Value>, currency: Value, host: Host) {
    && |cards| == |cats|
    && forall j :: 0 <= j < |cards| ==> Some(cards[j]) == CategoryCard(cats[j], currency, host)
  }

  /** Over a list of cards, the item rows number as many as the items of
      their categories together. */
  lemma ItemsAcrossCards(cards: seq<Node>, cats: seq<Value>, currency: Value, host: Host)
    requires CardsOf(cards, cats, currency, host)
    ensures |Select(cards, "item")| == ItemTotal(cats)
  {
    forall j | 0 <= j < |cards| ensures |Select([cards[j]], "item")| == |ItemsOf(cats[j])| {
      assert Some(cards[j]) == CategoryCard(cats[j], currency, host);
      CardRows(cats[j], currency, host);
    }
    ItemsSum(cards, cats);
  }

  /** Trees that hold as many item rows each as their categories have
      items hold as many together as the categories have in all. */
  lemma {:induction false} ItemsSum(cards: seq<Node>, cats: seq<Value>)
    requires |cards| == |cats|
    requires forall j :: 0 <= j < |cards| ==> |Select([cards[j]], "item")| == |ItemsOf(cats[j])|
    ensures |Select(cards, "item")| == ItemTotal(cats)
    decreases |cards|
  {
    if cards != [] {
      assert cards == [cards[0]] + cards[1..];
      SelectAppend([cards[0]], cards[1..], "item");
      forall j | 0 <= j < |cards| - 1
        ensures |Select([cards[1..][j]], "item")| == |ItemsOf(cats[1..][j])|
      {
        assert cards[1..][j] == cards[j + 1] && cats[1..][j] == cats[j + 1];
      }
      ItemsSum(cards[1..], cats[1..]);
    }
  }

  /** Over a list of cards, the titles in category order. */
  lemma TitlesAcrossCards(cards: seq<Node>, cats: seq<Value>, currency: Value, host: Host)
    requires CardsOf(cards, cats, currency, host)
    ensures Texts(Select(cards, "category-title")) ==
      seq(|cats|, j requires 0 <= j < |cats| => Some(Or(Field(cats[j], "name"), Str("Kategori"))))
  {
    var titles := seq(|cats|, j requires 0 <= j < |cats| => CategoryTitle(cats[j]));
    forall j | 0 <= j < |cards| ensures Select([cards[j]], "category-title") == [titles[j]] {
      assert CategoryCard(cats[j], currency, host).Some?;
      CardTitle(cats[j], currency, host);
      assert Texts(Select([cards[j]], "category-title")) == [titles[j].text];
    }
    SelectOnePerTree(cards, "category-title", titles);
  }

  /** A document with no categories renders only the empty-state message,
      and a document with categories never shows it. */
  lemma EmptyStateIff(doc: Value, host: Host)
    ensures var r := Rendered(doc, host);
      Texts(Select(r.0, "empty")) ==
        if CategoriesOf(doc) == [] then [Some(Str(EmptyMessage))] else []
  {
    var r := Rendered(doc, host);
    var cats := CategoriesOf(doc);
    if cats == [] {
      SelectLeaf(EmptyState, "empty");
    } else {
      forall j | 0 <= j < |r.0| ensures Select([r.0[j]], "empty") == [] {
        CardNotEmpty(cats[j], CurrencyOf(doc), host);
      }
      SelectNoneInTrees(r.0, "empty");
    }
  }

  /** When `render` completes, the container holds one card per category, in
      order, each titled after its category, and as many item rows as the
      categories have items. */
  lemma RenderedCards(doc: Value, host: Host)
    requires CategoriesOf(doc) != []
    requires Rendered(doc, host).1
    ensures var r := Rendered(doc, host);
      var cats := CategoriesOf(doc);
      && Select(r.0, "category-card") == r.0
      && |r.0| == |cats|
      && Texts(Select(r.0, "category-title")) ==
           seq(|cats|, j requires 0 <= j < |cats| => Some(Or(Field(cats[j], "name"), Str("Kategori"))))
      && |Select(r.0, "item")| == ItemTotal(cats)
  {
    var r := Rendered(doc, host);
    var cats := CategoriesOf(doc);
    var currency := CurrencyOf(doc);
    assert CardsOf(r.0, cats, currency, host);
    forall j | 0 <= j < |r.0| ensures Select([r.0[j]], "category-card") == [r.0[j]] {
      CardItself(cats[j], currency, host);
    }
    SelectOnePerTree(r.0, "category-card", r.0);
    TitlesAcrossCards(r.0, cats, currency, host);
    ItemsAcrossCards(r.0, cats, currency, host);
  }
}
