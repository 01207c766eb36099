/** What a reader of the page finds in the rendered menu, stated through
    class queries (`querySelectorAll('.cls')`) over the trees that `render`
    builds: rows, names, prices, descriptions, tags and images per item;
    titles and descriptions per category; cards and rows per document. */
module RenderFacts {
  import opened Js
  import opened Dom
  import opened Render

  // ---- rows ----

  /** A query over an element with a fixed two-level layout: a prefix of
      children, then one child that holds two fixed elements and two
      optional parts. */
  lemma SelectTwoLevels(row: Node, pre: seq<Node>, content: Node, a: Node, b: Node,
                        c: seq<Node>, d: seq<Node>, cls: string)
    requires row.children == pre + [content]
    requires content.children == [a, b] + c + d
    ensures Select([row], cls) ==
      (if row.className == cls then [row] else [])
      + (Select(pre, cls)
         + ((if content.className == cls then [content] else [])
            + (Select([a], cls) + Select([b], cls) + Select(c, cls) + Select(d, cls))))
  {
    var sa, sb, sc, sd := Select([a], cls), Select([b], cls), Select(c, cls), Select(d, cls);
    var sp := Select(pre, cls);
    var mr := if row.className == cls then [row] else [];
    var mc := if content.className == cls then [content] else [];
    assert Select(content.children, cls) == sa + sb + sc + sd by {
      assert [a, b] + c + d == [a] + [b] + c + d;
      SelectAppend([a] + [b] + c, d, cls);
      SelectAppend([a] + [b], c, cls);
      SelectAppend([a], [b], cls);
    }
    assert Select([content], cls) == mc + (sa + sb + sc + sd) by {
      SelectSingle(content, cls);
    }
    assert Select(row.children, cls) == sp + (mc + (sa + sb + sc + sd)) by {
      SelectAppend(pre, [content], cls);
    }
    assert Select([row], cls) == mr + (sp + (mc + (sa + sb + sc + sd))) by {
      SelectSingle(row, cls);
    }
  }

  /** A leaf contributes itself to a query of its own class and nothing to
      any other. */
  lemma SelectLeaf(n: Node, cls: string)
    requires n.children == []
    ensures Select([n], cls) == if n.className == cls then [n] else []
  {
    SelectSingle(n, cls);
  }

  /** A query over an optional leaf. */
  lemma SelectOptionalLeaf(ns: seq<Node>, cls: string)
    requires |ns| <= 1
    requires forall n :: n in ns ==> n.children == []
    ensures Select(ns, cls) == if ns != [] && ns[0].className == cls then ns else []
  {
    if ns != [] {
      assert ns == [ns[0]];
      SelectLeaf(ns[0], cls);
    }
  }

  /** The tag spans of a row's tag block, as the query for `tag` finds them. */
  lemma TagsBlockSelect(item: Value, cls: string)
    ensures cls == "tag" ==>
      Select(TagsBlock(item), cls) ==
        (if Field(item, "tags").Arr? then TagSpans(Field(item, "tags").elems) else [])
    ensures cls != "tag" && cls != "item-tags" ==> Select(TagsBlock(item), cls) == []
    ensures cls == "item-tags" ==> Select(TagsBlock(item), cls) == TagsBlock(item)
  {
    var tags := Field(item, "tags");
    if tags.Arr? && |tags.elems| > 0 {
      var spans := TagSpans(tags.elems);
      var block := TagsBlock(item)[0];
      assert TagsBlock(item) == [block];
      SelectSingle(block, cls);
      forall j | 0 <= j < |spans| ensures Select([spans[j]], cls) == if cls == "tag" then [spans[j]] else [] {
        SelectLeaf(spans[j], cls);
      }
      if cls == "tag" {
        SelectOnePerTree(spans, cls, spans);
      } else {
        SelectNoneInTrees(spans, cls);
      }
    } else if tags.Arr? {
      assert TagSpans(tags.elems) == [];
    }
  }

  /** The image block as the queries for the wrapper and the image find it. */
  lemma ImageBlockSelect(item: Value, cls: string)
    requires !ItemThrows(item)
    ensures cls != "item-image-wrapper" && cls != "item-image" ==> Select(ImageBlock(item), cls) == []
    ensures cls == "item-image-wrapper" ==> Select(ImageBlock(item), cls) == ImageBlock(item)
    ensures cls == "item-image" ==>
      Select(ImageBlock(item), cls) == (if ImageBlock(item) == [] then [] else ImageBlock(item)[0].children)
  {
    if ImageBlock(item) != [] {
      var wrapper := ImageBlock(item)[0];
      assert ImageBlock(item) == [wrapper];
      SelectSingle(wrapper, cls);
      SelectLeaf(wrapper.children[0], cls);
      assert wrapper.children == [wrapper.children[0]];
    }
  }

  /** A query over a two-level layout whose own two elements do not match
      finds only what the `k`-th part (prefix, `a`, `b`, `c`, `d`) finds, when
      the other parts find nothing. */
  lemma OnlyPart(row: Node, pre: seq<Node>, content: Node, a: Node, b: Node,
                 c: seq<Node>, d: seq<Node>, cls: string, k: nat)
    requires row.children == pre + [content]
    requires content.children == [a, b] + c + d
    requires row.className != cls && content.className != cls
    requires k < 5
    requires k != 0 ==> Select(pre, cls) == []
    requires k != 1 ==> Select([a], cls) == []
    requires k != 2 ==> Select([b], cls) == []
    requires k != 3 ==> Select(c, cls) == []
    requires k != 4 ==> Select(d, cls) == []
    ensures Select([row], cls) == [Select(pre, cls), Select([a], cls), Select([b], cls), Select(c, cls), Select(d, cls)][k]
  {
    BelowTop(row, pre, content, a, b, c, d, cls);
    var sp, sa, sb, sc, sd := Select(pre, cls), Select([a], cls), Select([b], cls), Select(c, cls), Select(d, cls);
    OnlyNonEmpty(sp, sa, sb, sc, sd, k);
  }

  /** A query over a two-level layout whose own two elements do not match
      is the concatenation of what its five parts find. */
  lemma BelowTop(row: Node, pre: seq<Node>, content: Node, a: Node, b: Node,
                 c: seq<Node>, d: seq<Node>, cls: string)
    requires row.children == pre + [content]
    requires content.children == [a, b] + c + d
    requires row.className != cls && content.className != cls
    ensures Select([row], cls) == Select(pre, cls) + Select([a], cls) + Select([b], cls) + Select(c, cls) + Select(d, cls)
  {
    SelectTwoLevels(row, pre, content, a, b, c, d, cls);
    WithoutTops(Select(pre, cls), Select([a], cls), Select([b], cls), Select(c, cls), Select(d, cls));
  }

  /** Two empty matches of the layout's own elements drop out of a query's
      result. */
  lemma WithoutTops<T>(sp: seq<T>, sa: seq<T>, sb: seq<T>, sc: seq<T>, sd: seq<T>)
    ensures [] + (sp + ([] + (sa + sb + sc + sd))) == sp + sa + sb + sc + sd
  {
  }

  /** A concatenation of five parts all empty but the `k`-th is that part. */
  lemma OnlyNonEmpty<T>(sp: seq<T>, sa: seq<T>, sb: seq<T>, sc: seq<T>, sd: seq<T>, k: nat)
    requires k < 5
    requires k != 0 ==> sp == []
    requires k != 1 ==> sa == []
    requires k != 2 ==> sb == []
    requires k != 3 ==> sc == []
    requires k != 4 ==> sd == []
    ensures sp + sa + sb + sc + sd == [sp, sa, sb, sc, sd][k]
  {
    if k == 0 {
      assert sp + sa + sb + sc + sd == sp;
    }
  }

  /** The fixed layout of a row: the image block, then the content holding
      name, price, description and tag block. */
  lemma RowLayout(item: Value, currency: Value, host: Host)
    requires !ItemThrows(item)
    ensures var row := ItemRow(item, currency, host).value;
      var content := ItemContent(item, currency, host);
      && row.className == "item" && content.className == "item-content"
      && row.children == ImageBlock(item) + [content]
      && content.children == [NameNode(item), PriceNode(item, currency, host)] + ItemDesc(item) + TagsBlock(item)
  {
  }

  /** The parts of a row that a query for `cls` cannot reach unless `cls`
      is one of their own classes. */
  lemma RowPartsSilent(item: Value, currency: Value, host: Host, cls: string)
    requires !ItemThrows(item)
    ensures cls != "item-image-wrapper" && cls != "item-image" ==> Select(ImageBlock(item), cls) == []
    ensures cls != "item-name" ==> Select([NameNode(item)], cls) == []
    ensures cls != "item-price" ==> Select([PriceNode(item, currency, host)], cls) == []
    ensures cls != "item-desc" ==> Select(ItemDesc(item), cls) == []
    ensures cls != "item-tags" && cls != "tag" ==> Select(TagsBlock(item), cls) == []
  {
    ImageBlockSelect(item, cls);
    SelectLeaf(NameNode(item), cls);
    SelectLeaf(PriceNode(item, currency, host), cls);
    SelectOptionalLeaf(ItemDesc(item), cls);
    TagsBlockSelect(item, cls);
  }

  /** A query over a row for a class that only one part can hold. */
  lemma RowPart(item: Value, currency: Value, host: Host, cls: string, k: nat)
    requires !ItemThrows(item)
    requires cls != "item" && cls != "item-content"
    requires k == 0 ==> cls == "item-image-wrapper" || cls == "item-image"
    requires k == 1 ==> cls == "item-name"
    requires k == 2 ==> cls == "item-price"
    requires k == 3 ==> cls == "item-desc"
    requires k == 4 ==> cls == "item-tags" || cls == "tag"
    requires k < 5
    ensures Select([ItemRow(item, currency, host).value], cls) ==
      [Select(ImageBlock(item), cls), Select([NameNode(item)], cls), Select([PriceNode(item, currency, host)], cls),
       Select(ItemDesc(item), cls), Select(TagsBlock(item), cls)][k]
  {
    RowLayout(item, currency, host);
    RowPartsSilent(item, currency, host, cls);
    OnlyPart(ItemRow(item, currency, host).value, ImageBlock(item), ItemContent(item, currency, host), NameNode(item),
      PriceNode(item, currency, host), ItemDesc(item), TagsBlock(item), cls, k);
  }

  /** A query over a two-level layout where no part below the top matches. */
  lemma TopOnly(row: Node, pre: seq<Node>, content: Node, a: Node, b: Node,
                c: seq<Node>, d: seq<Node>, cls: string)
    requires row.children == pre + [content]
    requires content.children == [a, b] + c + d
    requires content.className != cls
    requires Select(pre, cls) == [] && Select([a], cls) == [] && Select([b], cls) == []
    requires Select(c, cls) == [] && Select(d, cls) == []
    ensures Select([row], cls) == if row.className == cls then [row] else []
  {
    SelectTwoLevels(row, pre, content, a, b, c, d, cls);
    var sp, sa, sb, sc, sd := Select(pre, cls), Select([a], cls), Select([b], cls), Select(c, cls), Select(d, cls);
    WithoutTops(sp, sa, sb, sc, sd);
  }

  /** The classes a row and its descendants can carry. */
  predicate RowClass(cls: string) {
    cls in {"item", "item-image-wrapper", "item-image", "item-content", "item-name",
            "item-price", "item-desc", "item-tags", "tag"}
  }

  /** A query for `item` finds the row itself and nothing inside it. */
  lemma RowItself(item: Value, currency: Value, host: Host)
    requires !ItemThrows(item)
    ensures var row := ItemRow(item, currency, host).value;
      Select([row], "item") == [row]
  {
    RowLayout(item, currency, host);
    RowPartsSilent(item, currency, host, "item");
    TopOnly(ItemRow(item, currency, host).value, ImageBlock(item), ItemContent(item, currency, host), NameNode(item),
      PriceNode(item, currency, host), ItemDesc(item), TagsBlock(item), "item");
  }

  /** A query for any class a row does not use finds nothing in it. */
  lemma RowForeign(item: Value, currency: Value, host: Host, cls: string)
    requires !ItemThrows(item)
    requires !RowClass(cls)
    ensures Select([ItemRow(item, currency, host).value], cls) == []
  {
    RowLayout(item, currency, host);
    RowPartsSilent(item, currency, host, cls);
    TopOnly(ItemRow(item, currency, host).value, ImageBlock(item), ItemContent(item, currency, host), NameNode(item),
      PriceNode(item, currency, host), ItemDesc(item), TagsBlock(item), cls);
  }

  /** Every row holds exactly one name, whose text is the item's `name`, or
      `''` when the name is falsy: no item is left without a name field. */
  lemma RowName(item: Value, currency: Value, host: Host)
    requires !ItemThrows(item)
    ensures var row := ItemRow(item, currency, host).value;
      Texts(Select([row], "item-name")) == [Some(Or(Field(item, "name"), Str("")))]
  {
    RowPart(item, currency, host, "item-name", 1);
    SelectLeaf(NameNode(item), "item-name");
  }

  /** Every row holds exactly one price; its text is the formatted price when
      `price` is of type number and `''` otherwise. */
  lemma RowPrice(item: Value, currency: Value, host: Host)
    requires !ItemThrows(item)
    ensures var row := ItemRow(item, currency, host).value;
      var price := Field(item, "price");
      Texts(Select([row], "item-price")) ==
        [Some(Str(if price.Num? then FormatPrice(host, price.n, currency) else ""))]
  {
    RowPart(item, currency, host, "item-price", 2);
    SelectLeaf(PriceNode(item, currency, host), "item-price");
  }

  /** A row holds an item description iff `desc` is truthy, with that text. */
  lemma RowDesc(item: Value, currency: Value, host: Host)
    requires !ItemThrows(item)
    ensures var row := ItemRow(item, currency, host).value;
      var desc := Field(item, "desc");
      Texts(Select([row], "item-desc")) == if Truthy(desc) then [Some(desc)] else []
  {
    RowPart(item, currency, host, "item-desc", 3);
    SelectOptionalLeaf(ItemDesc(item), "item-desc");
  }

  /** A row holds a tag block iff `tags` is a non-empty array. */
  lemma RowTagBlock(item: Value, currency: Value, host: Host)
    requires !ItemThrows(item)
    ensures var row := ItemRow(item, currency, host).value;
      var tags := Field(item, "tags");
      |Select([row], "item-tags")| == (if tags.Arr? && tags.elems != [] then 1 else 0)
  {
    RowPart(item, currency, host, "item-tags", 4);
    TagsBlockSelect(item, "item-tags");
  }

  /** A row holds one tag span per element of `tags`, in order, with that
      element as its text, and none when `tags` is not an array. */
  lemma RowTags(item: Value, currency: Value, host: Host)
    requires !ItemThrows(item)
    ensures var row := ItemRow(item, currency, host).value;
      var tags := Field(item, "tags");
      Texts(Select([row], "tag")) ==
        (if tags.Arr? then seq(|tags.elems|, j requires 0 <= j < |tags.elems| => Some(tags.elems[j]))
         else [])
  {
    var tags := Field(item, "tags");
    assert Select([ItemRow(item, currency, host).value], "tag") ==
      (if tags.Arr? then TagSpans(tags.elems) else []) by {
      RowPart(item, currency, host, "tag", 4);
      TagsBlockSelect(item, "tag");
    }
    if tags.Arr? {
      TagTexts(tags.elems);
    }
  }

  /** The spans of a tag list show the tags, one each, in order. */
  lemma TagTexts(tags: seq<Value>)
    ensures Texts(TagSpans(tags)) == seq(|tags|, j requires 0 <= j < |tags| => Some(tags[j]))
  {
  }

  /** A row holds an image wrapper iff `image` is non-blank after trimming. */
  lemma RowImageWrapper(item: Value, currency: Value, host: Host)
    requires !ItemThrows(item)
    ensures var row := ItemRow(item, currency, host).value;
      var image := Field(item, "image");
      |Select([row], "item-image-wrapper")| == (if image.Str? && Trim(image.s) != "" then 1 else 0)
  {
    RowPart(item, currency, host, "item-image-wrapper", 0);
    ImageBlockSelect(item, "item-image-wrapper");
  }

  /** A row holds an image iff `image` is non-blank after trimming, and that
      image's source is the trimmed string. */
  lemma RowImage(item: Value, currency: Value, host: Host)
    requires !ItemThrows(item)
    ensures var row := ItemRow(item, currency, host).value;
      var image := Field(item, "image");
      && |Select([row], "item-image")| == (if image.Str? && Trim(image.s) != "" then 1 else 0)
      && (forall img :: img in Select([row], "item-image") ==>
            "src" in img.attrs && img.attrs["src"] == Str(Trim(image.s)))
  {
    var block := ImageBlock(item);
    assert Select([ItemRow(item, currency, host).value], "item-image") ==
      (if block == [] then [] else block[0].children) by {
      RowPart(item, currency, host, "item-image", 0);
      ImageBlockSelect(item, "item-image");
    }
    ImagesOfBlock(item);
  }

  /** The images inside the image block: one for a non-blank image, with the
      trimmed string as its source, and none otherwise. */
  lemma ImagesOfBlock(item: Value)
    requires !ItemThrows(item)
    ensures var block := ImageBlock(item);
      var image := Field(item, "image");
      var found := if block == [] then [] else block[0].children;
      && |found| == (if image.Str? && Trim(image.s) != "" then 1 else 0)
      && (forall img :: img in found ==> "src" in img.attrs && img.attrs["src"] == Str(Trim(image.s)))
  {
    var block := ImageBlock(item);
    if block != [] {
      assert block[0].children == [block[0].children[0]];
    }
  }
}
