/** The page as the script leaves it (`window.MenuApp`): the header
    elements, the theme style and the categories container, written in place
    by `setHeader`, `applyThemeColors` and `render`, and `init`, which ties
    them together and falls back to an error placeholder when anything
    throws. */
module MenuApp {
  import opened Js
  import opened Dom
  import opened Source
  import opened Render
  import opened Header
  import opened Theme

  /** Why `fetchJson` rejects: a non-2xx response, a network failure, or a
      body that is not JSON. */
  datatype FetchError = HttpStatus(code: int) | NetworkFailure | NotJson

  datatype Result<T, E> = Ok(value: T) | Err(error: E)

  /** A snapshot of everything the script writes. */
  datatype View = View(header: HeaderView, style: Style, categories: seq<Node>)

  const ErrorPrefix: string := "Veri yüklenemedi. Kaynak: "

  /** The argument `init`'s catch branch passes to `setHeader`. */
  const FallbackInfo: Value := Obj(map["name" := Str(DefaultName)])

  // ---- the error placeholder ----

  const EmptyOpen: string := "<div class=\"empty\">"
  const DivClose: string := "</div>"

  /** The markup `init`'s catch branch assigns to `innerHTML`, with the
      source URL spliced in as it stands. */
  function ErrorMarkup(src: string): (r: string)
    ensures |r| == |EmptyOpen| + |ErrorPrefix| + |src| + |DivClose|
    ensures r[..|EmptyOpen|] == EmptyOpen && r[|r| - |DivClose|..] == DivClose
    ensures r[|EmptyOpen|..|r| - |DivClose|] == ErrorPrefix + src
  {
    EmptyOpen + ErrorPrefix + src + DivClose
  }

  /** A character that, right after `<`, makes the HTML tokenizer leave text
      and open markup (the "tag open state" of the WHATWG HTML standard):
      an ASCII letter starts a tag, `/` an end tag, `!` a comment or
      declaration, `?` a bogus comment. After anything else `<` is text. */
  predicate StartsMarkup(c: char) {
    ('a' <= c <= 'z') || ('A' <= c <= 'Z') || c == '/' || c == '!' || c == '?'
  }

  /** Index `i` of `s` holds a `<` that opens markup. */
  predicate TagOpenAt(s: string, i: int) {
    0 <= i < |s| - 1 && s[i] == '<' && StartsMarkup(s[i + 1])
  }

  /** Text in which no `<` opens markup. */
  predicate NoTagOpen(s: string) {
    forall i | 0 <= i < |s| :: !TagOpenAt(s, i)
  }

  /** Markup that an HTML parser turns into one `empty` div holding only
      text: the opening tag, text in which no `<` opens markup, the closing
      tag. A `<` at the very end of the text is followed by the `<` of the
      closing tag, so it stays text too. */
  predicate IsPlainTextDiv(html: string) {
    && |html| >= |EmptyOpen| + |DivClose|
    && html[..|EmptyOpen|] == EmptyOpen
    && html[|html| - |DivClose|..] == DivClose
    && NoTagOpen(html[|EmptyOpen|..|html| - |DivClose|])
  }

  /** The markup is a plain text div exactly when no `<` in the source URL
      opens markup: any source whose `<` does injects markup of its own
      into the page. */
  lemma ErrorMarkupPlainIff(src: string)
    ensures IsPlainTextDiv(ErrorMarkup(src)) <==> NoTagOpen(src)
  {
    var m := ErrorMarkup(src);
    var body := m[|EmptyOpen|..|m| - |DivClose|];
    assert body == ErrorPrefix + src;
    assert '<' !in ErrorPrefix;
    if NoTagOpen(src) {
      forall i | 0 <= i < |body| ensures !TagOpenAt(body, i) {
        if |ErrorPrefix| <= i < |body| - 1 {
          assert body[i] == src[i - |ErrorPrefix|];
          assert body[i + 1] == src[i + 1 - |ErrorPrefix|];
          assert !TagOpenAt(src, i - |ErrorPrefix|);
        }
      }
    } else {
      var j :| 0 <= j < |src| && TagOpenAt(src, j);
      assert j + 1 < |src| && src[j] == '<' && StartsMarkup(src[j + 1]);
      assert body[|ErrorPrefix| + j] == src[j];
      assert body[|ErrorPrefix| + j + 1] == src[j + 1];
      assert TagOpenAt(body, |ErrorPrefix| + j);
    }
  }

  /** A `src` query parameter reaches the markup verbatim: an `img` element
      with an `onerror` handler, say, whose `<i` opens a tag that the
      browser then builds and whose handler it runs. */
  lemma ErrorMarkupInjects(hostname: string)
    ensures var src := "<img src=x onerror=alert(1)>";
      && ResolveSourceUrl(Some(src), hostname) == src
      && TagOpenAt(src, 0)
      && !IsPlainTextDiv(ErrorMarkup(ResolveSourceUrl(Some(src), hostname)))
  {
    var src := "<img src=x onerror=alert(1)>";
    assert src[0] == '<' && src[1] == 'i';
    assert TagOpenAt(src, 0);
    assert !NoTagOpen(src);
    ErrorMarkupPlainIff(src);
  }

  /** A `<` that opens nothing, as in `x<1`, stays text: such a source
      leaves the markup a plain text div. */
  lemma ErrorMarkupStrayLessThan()
    ensures IsPlainTextDiv(ErrorMarkup("x<1"))
  {
  }

  /** The placeholder as a text node: the source URL is shown as text,
      whatever characters it holds. */
  function ErrorPlaceholder(src: string): (n: Node)
    ensures n.children == []
  {
    Leaf("div", "empty", Str(ErrorPrefix + src))
  }

  /** The placeholder is the one `empty` element of the container, and its
      text ends with the source URL. */
  lemma ErrorPlaceholderShowsSource(src: string)
    ensures var found := Select([ErrorPlaceholder(src)], "empty");
      && |found| == 1
      && found[0].text.Some? && found[0].text.value.Str?
      && found[0].text.value.s[|ErrorPrefix|..] == src
      && found[0].children == []
  {
    SelectSingle(ErrorPlaceholder(src), "empty");
  }

  // ---- init ----

  /** `init`'s catch branch: the header for the default name, the theme as
      it was, and only the error placeholder in the container. */
  function Fallback(v: View, src: string, t: Option<string>): (r: View)
    ensures r.header.name == Str(DefaultName)
    ensures !r.header.logo.visible && !r.header.address.visible && !r.header.phone.visible
    ensures r.style == v.style
    ensures r.categories == [ErrorPlaceholder(src)]
  {
    FallbackHeader(v.header, t);
    View(HeaderAfter(v.header, FallbackInfo, t).0, v.style, [ErrorPlaceholder(src)])
  }

  /** The page after `init`, for the document source `src`, the outcome of
      fetching it and the `t` query value. */
  function InitSpec(v: View, src: string, fetched: Result<Value, FetchError>, t: Option<string>, host: Host): (r: View)
    ensures fetched.Err? ==> r == Fallback(v, src, t)
  {
    match fetched
    case Err(_) => Fallback(v, src, t)
    case Ok(data) =>
      var (h, ok) := HeaderAfter(v.header, Field(data, "restaurant"), t);
      if !ok then Fallback(v.(header := h), src, t)
      else
        var colors := Field(data, "themeColors");
        var style := if Truthy(colors) then Themed(v.style, colors) else v.style;
        var (cards, rendered) := Rendered(data, host);
        if !rendered then Fallback(View(h, style, cards), src, t)
        else View(h, style, cards)
  }

  /** Whether `init` completes without reaching its catch branch. */
  predicate Completes(data: Value, host: Host) {
    && TrimTest(Field(Field(data, "restaurant"), "logo")) != Throws
    && TrimTest(Field(Field(data, "restaurant"), "address")) != Throws
    && TrimTest(Field(Field(data, "restaurant"), "phone")) != Throws
    && Rendered(data, host).1
  }

  /** A document that loads and renders gives the header of its
      `restaurant`, its theme, and its rendered categories. */
  lemma InitLoads(v: View, src: string, data: Value, t: Option<string>, host: Host)
    requires Completes(data, host)
    ensures var r := InitSpec(v, src, Ok(data), t, host);
      && r.header == HeaderAfter(v.header, Field(data, "restaurant"), t).0
      && r.style == Themed(v.style, Field(data, "themeColors"))
      && r.categories == Rendered(data, host).0
  {
  }

  /** Whenever `init` fails — the fetch rejects, the header or the render
      throws — the page shows the default name and exactly one `empty`
      element, whose text ends with the source URL. */
  lemma InitFailureShowsSource(v: View, src: string, fetched: Result<Value, FetchError>, t: Option<string>, host: Host)
    requires fetched.Err? || !Completes(fetched.value, host)
    ensures var r := InitSpec(v, src, fetched, t, host);
      && r.header.name == Str(DefaultName)
      && |Select(r.categories, "empty")| == 1
      && Texts(Select(r.categories, "empty")) == [Some(Str(ErrorPrefix + src))]
  {
    var r := InitSpec(v, src, fetched, t, host);
    assert r.categories == [ErrorPlaceholder(src)];
    SelectSingle(ErrorPlaceholder(src), "empty");
  }

  /** Running `init` again against the same source and outcome changes
      nothing: the page reached is a fixed point. */
  lemma InitIdempotent(v: View, src: string, fetched: Result<Value, FetchError>, t: Option<string>, host: Host)
    ensures var once := InitSpec(v, src, fetched, t, host);
      InitSpec(once, src, fetched, t, host) == once
  {
    var once := InitSpec(v, src, fetched, t, host);
    match fetched
    case Err(_) =>
      HeaderIdempotent(v.header, FallbackInfo, t);
    case Ok(data) =>
      var info := Field(data, "restaurant");
      var (h, ok) := HeaderAfter(v.header, info, t);
      if !ok {
        FallbackAbsorbs(v.header, info, t);
      } else {
        var colors := Field(data, "themeColors");
        ThemedIdempotent(v.style, colors);
        if Rendered(data, host).1 {
          HeaderIdempotent(v.header, info, t);
        } else {
          FallbackKeepsHeader(v.header, info, t);
        }
      }
  }

  /** After a header that throws and the fallback header, setting the same
      header and falling back again reaches the same header. */
  lemma FallbackAbsorbs(h: HeaderView, info: Value, t: Option<string>)
    requires !HeaderAfter(h, info, t).1
    ensures var hf := HeaderAfter(HeaderAfter(h, info, t).0, FallbackInfo, t).0;
      && !HeaderAfter(hf, info, t).1
      && HeaderAfter(HeaderAfter(hf, info, t).0, FallbackInfo, t).0 == hf
  {
    var h1 := HeaderAfter(h, info, t).0;
    FallbackHeader(h1, t);
    var hf := HeaderAfter(h1, FallbackInfo, t).0;
    var h2 := HeaderAfter(hf, info, t).0;
    FallbackHeader(h2, t);
    HeaderAfterSteps(h, info, t);
    HeaderAfterSteps(hf, info, t);
    if TrimTest(Field(info, "logo")) != Throws {
      ToggleKeepsContent(h.logo, hf.logo, Field(info, "logo"));
      if TrimTest(Field(info, "address")) != Throws {
        ToggleKeepsContent(h.address, hf.address, Field(info, "address"));
      }
    }
  }

  /** Toggling an element that already holds the content a toggle with the
      same value produced keeps that content. */
  lemma ToggleKeepsContent(a: Shown, b: Shown, v: Value)
    requires Toggle(a, v).Some?
    requires b.content == Toggle(a, v).value.content
    ensures Toggle(b, v).Some? && Toggle(b, v).value.content == b.content
  {
  }

  /** Setting a header that succeeds over its own fallback restores it. */
  lemma FallbackKeepsHeader(h: HeaderView, info: Value, t: Option<string>)
    requires HeaderAfter(h, info, t).1
    ensures var h1 := HeaderAfter(h, info, t).0;
      var hf := HeaderAfter(h1, FallbackInfo, t).0;
      HeaderAfter(hf, info, t) == (h1, true)
  {
    var h1 := HeaderAfter(h, info, t).0;
    FallbackHeader(h1, t);
    var hf := HeaderAfter(h1, FallbackInfo, t).0;
    HeaderAfterSteps(h, info, t);
    HeaderAfterSteps(hf, info, t);
    ToggleIdempotent(h.logo, Field(info, "logo"));
    ToggleIdempotent(h.address, Field(info, "address"));
    ToggleIdempotent(h.phone, Field(info, "phone"));
  }

  /** One optional header element: shown with the value when it is
      non-blank after trimming, hidden otherwise; `ok` is `false` when
      `trim` throws. */
  method ShowIfNonBlank(el: Shown, v: Value) returns (ok: bool, next: Shown)
    ensures ok <==> Toggle(el, v).Some?
    ensures ok ==> next == Toggle(el, v).value
  {
    if Truthy(v) && !v.Str? {
      return false, el;
    }
    if Truthy(v) && Trim(v.s) != "" {
      next := Shown(v, true);
    } else {
      next := el.(visible := false);
    }
    ok := true;
  }

  /** `if (colors[key]) root.style.setProperty(name, colors[key])`. */
  method SetProperty(vars: map<string, Value>, colors: Value, key: string, name: string)
    returns (r: map<string, Value>)
    ensures r == SetIf(vars, colors, key, name)
  {
    r := vars;
    var v := Field(colors, key);
    if Truthy(v) {
      r := r[name := v];
    }
  }

  // ---- the page object ----

  /** The elements the script writes, updated in place: the header
      elements, the theme style and the categories container. */
  class Page {
    var header: HeaderView
    var style: Style
    var categories: seq<Node>

    constructor (v: View)
      ensures Current() == v
    {
      header := v.header;
      style := v.style;
      categories := v.categories;
    }

    function Current(): View
      reads this
    {
      View(header, style, categories)
    }

    /** `setHeader(info)`: writes the header elements one after the other
        and returns `false` where a `trim` throws. */
    method SetHeader(info: Value, t: Option<string>) returns (ok: bool)
      modifies this
      ensures (header, ok) == HeaderAfter(old(header), info, t)
      ensures style == old(style) && categories == old(categories)
    {
      header := header.(name := Or(Field(info, "name"), Str(DefaultName)));
      var next;
      ok, next := ShowIfNonBlank(header.logo, Field(info, "logo"));
      if !ok {
        return;
      }
      header := header.(logo := next);
      header := header.(table := TableText(t));
      ok, next := ShowIfNonBlank(header.address, Field(info, "address"));
      if !ok {
        return;
      }
      header := header.(address := next);
      ok, next := ShowIfNonBlank(header.phone, Field(info, "phone"));
      if !ok {
        return;
      }
      header := header.(phone := next);
    }

    /** `applyThemeColors(colors)`: each truthy palette value sets its CSS
        variable, and `bgColor` and `textColor` the body's style too. */
    method ApplyThemeColors(colors: Value)
      modifies this
      ensures style == Themed(old(style), colors)
      ensures header == old(header) && categories == old(categories)
    {
      if !Truthy(colors) {
        return;
      }
      var vars, background, color := style.vars, style.background, style.color;
      var v := Field(colors, "bgColor");
      if Truthy(v) {
        vars := vars["--bg" := v];
        background := v;
      }
      vars := SetProperty(vars, colors, "cardColor", "--card");
      v := Field(colors, "textColor");
      if Truthy(v) {
        vars := vars["--text" := v];
        color := v;
      }
      vars := SetProperty(vars, colors, "mutedColor", "--muted");
      vars := SetProperty(vars, colors, "accentColor", "--accent");
      vars := SetProperty(vars, colors, "borderColor", "--border");
      vars := SetProperty(vars, colors, "categoryTextColor", "--category-text");
      style := Style(vars, background, color);
    }

    /** `render(doc)`: empties the container, then appends one card per
        category until one throws; what it leaves depends on `doc` alone. */
    method Render(doc: Value, host: Host) returns (ok: bool)
      modifies this
      ensures (categories, ok) == Rendered(doc, host)
      ensures header == old(header) && style == old(style)
    {
      categories := [];
      var currency := Or(Field(Field(doc, "restaurant"), "currency"), Str("TRY"));
      var cats := ArrayOrEmpty(Field(doc, "categories"));
      if |cats| == 0 {
        categories := [EmptyState];
        return true;
      }
      var i := 0;
      while i < |cats|
        invariant 0 <= i <= |cats|
        invariant forall j :: 0 <= j < i ==> !CardThrows(cats[j])
        invariant categories == Cards(cats[..i], currency, host)
        invariant header == old(header) && style == old(style)
      {
        var card := BuildCategoryCard(cats[i], currency, host);
        if card.None? {
          FirstThrowAt(cats, i, currency, host);
          return false;
        }
        CardsSnoc(cats, i, currency, host);
        categories := categories + [card.value];
        i := i + 1;
      }
      FirstThrowAt(cats, i, currency, host);
      assert cats[..i] == cats;
      return true;
    }

    /** `init()`: resolves the source, fetches it (`fetch` stands for the
        network), then sets the header, the theme and the menu, and falls
        back to the error placeholder when any step throws. */
    method Init(srcParam: Option<string>, hostname: string, t: Option<string>,
                fetch: string -> Result<Value, FetchError>, host: Host)
      modifies this
      ensures var src := ResolveSourceUrl(srcParam, hostname);
        Current() == InitSpec(old(Current()), src, fetch(src), t, host)
    {
      var src := ResolveSourceUrl(srcParam, hostname);
      var fetched := fetch(src);
      var ok := false;
      if fetched.Ok? {
        var data := fetched.value;
        ok := SetHeader(Field(data, "restaurant"), t);
        if ok {
          var colors := Field(data, "themeColors");
          if Truthy(colors) {
            ApplyThemeColors(colors);
          }
          ok := Render(data, host);
        }
      }
      if !ok {
        var _ := SetHeader(FallbackInfo, t);
        categories := [ErrorPlaceholder(src)];
      }
    }
  }
}
