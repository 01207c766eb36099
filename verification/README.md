# Restaurant menu page — a Dafny model

`menu.js` is the browser script of a restaurant menu page. On load it
takes these steps:
- It chooses where the menu document comes from (`resolveSourceUrl`) and fetches it.
- It writes the header: name, logo, table indicator, address and phone (`setHeader`).
- It applies the document's colour palette to CSS variables and the body style (`applyThemeColors`).
- It builds one card per category, with one row per item (`render`).
- When the fetch or any step throws, it shows a default header and an error message naming the source (`init`'s catch branch).

This project models that script in Dafny and proves what the page shows.

## Modules

- `js.dfy` (`Js`) covers the JavaScript semantics the script relies on:
  - JSON values, truthiness and the `||` default idiom;
  - optional property access;
  - `String.prototype.trim` and `includes`;
  - `TrimTest`, the outcome of a guard `v && v.trim()`: blank, non-blank, or a TypeError for a truthy non-string.
- `source.dfy` (`Source`): `resolveSourceUrl`.
- `dom.dfy` (`Dom`): element trees and the class query `querySelectorAll('.cls')` (`Select`, in document order), plus `Texts`, the `textContent` of each result.
- `render.dfy` (`Render`): `formatPrice`, plus the tree `render` builds, given as functions. The methods `BuildTagSpans`, `BuildItemContent`, `BuildItemRow` and `BuildCategoryCard` build it step by step, as the script's loops do, and are proved to build exactly that tree.
- `render_facts.dfy` (`RenderFacts`) and `menu_facts.dfy` (`MenuFacts`) state what a reader finds with class queries:
  - per row: name, price, description, tags and image;
  - per card: title, description, rows, names and prices;
  - per document: the empty-state message, one card per category, titles in order, and the item count.
- `header.dfy` (`Header`) covers `setHeader` as a function from the previous header state:
  - it stops at the first `trim` that throws;
  - it is idempotent;
  - it ignores hidden content;
  - it gives the fallback header `init` uses.
- `theme.dfy` (`Theme`): `applyThemeColors`. Each CSS variable gets its palette value when that value is truthy. The lemmas prove idempotence and that only the assigned values matter.
- `page.dfy` (`MenuApp`) holds the page state and `init`.
  - The class `Page` holds the header, the style and the categories container.
  - Its methods `SetHeader`, `ApplyThemeColors`, `Render` and `Init` update them in place.
  - Each method is proved to reach the state the functions above describe.
  - `InitSpec` states `init` over a `Result` for the fetch outcome.

## Model

| member | source | states |
|---|---|---|
| Js.Or | menu.js:42 | the logical-or default of two operands is the left operand exactly when it is truthy, otherwise the right one; a truthy default makes the result truthy |
| Js.Field | menu.js:42 | `v?.key` is `undefined` on a non-object or a missing key, the property's value otherwise |
| Js.FalsyValues | menu.js:184 | the values `!colors` accepts are exactly undefined, null, false, 0, NaN and the empty string |
| Js.Trim | menu.js:43 | `trim` gives the empty string iff the input is all white space; otherwise a slice of the input that starts and ends with a non-space |
| Js.TrimDropsOnlySpace | menu.js:43 | what `trim` drops is white space at the two ends and nothing else: the result sits in the input with only white space before and after it |
| Js.TrimTest | menu.js:43 | the guard `v && v.trim()` throws exactly for a truthy non-string and passes exactly for a string with a non-space character |
| Source.ResolveSourceUrl | menu.js:8-19 | the result is never empty; a non-empty `src` is used verbatim; otherwise the default raw URL on a `github.io` or `localhost` host, and `menu.local.json` elsewhere |
| Source.SrcOverridesHost | menu.js:9-10 | a non-empty `src` gives the same source on every host |
| Source.GithubPagesUsesDefault | menu.js:13-14 | every GitHub Pages host `<user>.github.io`, and `localhost`, with `src` absent or empty, resolve to the default raw URL |
| Source.OtherHostUsesLocalPath | menu.js:18 | an example of another host: `example.com` without `src` resolves to the local demo document |
| Render.FormatPrice | menu.js:21-27 | the locale currency format of the price, or `<value> <currency>` when the formatter throws; a falsy currency means TRY |
| Render.CurrencyOf | menu.js:75 | the currency is always truthy: the restaurant's when truthy, TRY otherwise |
| Render.ArrayOrEmpty | menu.js:76 | an array's elements, and no elements for any other value |
| Render.ImageBlock | menu.js:104-141 | a wrapper exists iff `image` is a string that is non-blank after trimming; it holds one `item-image` whose `src` is the trimmed string |
| Render.PriceText | menu.js:153 | the formatted price when `price` is a number, the empty string otherwise |
| Render.ItemRow | menu.js:100-176 | a row exists unless `image`'s `trim` throws, and it carries class `item` |
| Render.BuildTagSpans | menu.js:166-171 | the tag loop builds one span per tag, in order |
| Render.BuildItemContent | menu.js:143-173 | appending name, price, optional description and optional tags builds exactly the row content |
| Render.BuildItemRow | menu.js:100-176 | the row built step by step is `ItemRow`, including giving up when `trim` throws |
| Render.Rows | menu.js:99-177 | one row per item, in order, each the item's row |
| Render.CategoryCard | menu.js:83-177 | a card exists iff no row of the category throws, and it carries class `category-card` |
| Render.BuildCategoryCard | menu.js:83-177 | the card built by the item loop is exactly `CategoryCard`, `None` at the first throwing item |
| Render.FirstThrow | menu.js:82-180 | the number of categories appended before the first throwing one: all of them render and the next one throws |
| Render.FirstThrowAt | menu.js:82-180 | the index where the category loop stops is determined: every earlier category renders and the one at that index throws |
| Render.Cards | menu.js:82-180 | one card per category, in order |
| Render.Rendered | menu.js:71-181 | no categories gives only the empty-state message; otherwise `render` returns normally iff no category throws; the container holds the cards of exactly the categories before the first one that throws, all of them when it returns normally |
| RenderFacts.RowItself | menu.js:100-101 | a query for `item` finds the row and nothing inside it |
| RenderFacts.RowForeign | menu.js:100-175 | a row holds no element of any class the row layout does not use |
| RenderFacts.RowName | menu.js:146-149 | every row holds exactly one name, with text `name`, or the empty string when `name` is falsy |
| RenderFacts.RowPrice | menu.js:151-154 | every row holds exactly one price, formatted for numbers and empty otherwise |
| RenderFacts.RowDesc | menu.js:156-161 | a row holds one description, with text `desc`, iff `desc` is truthy |
| RenderFacts.RowTagBlock | menu.js:163-165 | a row holds one tag block iff `tags` is a non-empty array |
| RenderFacts.RowTags | menu.js:163-171 | a row's tag texts are the elements of `tags`, one each, in order, and there are none when `tags` is not an array |
| RenderFacts.RowImageWrapper | menu.js:104-106 | a row holds one image wrapper iff `image` is non-blank after trimming |
| RenderFacts.RowImage | menu.js:104-120 | a row holds one image iff `image` is non-blank after trimming, and its `src` is the trimmed string |
| MenuFacts.RowsItself | menu.js:99-101 | a query for `item` over a card's rows finds exactly those rows, in order |
| MenuFacts.RowsNames | menu.js:99-149 | the names of a card's rows are the items' names, one per item, in order |
| MenuFacts.RowsPrices | menu.js:99-154 | the prices of a card's rows are the items' price texts, one per item, in order |
| MenuFacts.CardTitle | menu.js:86-89 | every card holds exactly one title, with text `name`, or `Kategori` when `name` is falsy |
| MenuFacts.CardDesc | menu.js:91-96 | a card holds one description, with its text, iff `description` is truthy |
| MenuFacts.CardRows | menu.js:98-176 | a card holds exactly its category's rows, one per item, in order |
| MenuFacts.CardNames | menu.js:98-149 | the item names a card shows, one per item, in order |
| MenuFacts.CardPrices | menu.js:98-154 | the prices a card shows, one per item, in order |
| MenuFacts.CardItself | menu.js:83-84 | a card contains no card but itself |
| MenuFacts.CardNotEmpty | menu.js:83-176 | a card never holds the empty-state message |
| MenuFacts.ItemsAcrossCards | menu.js:82-180 | the container holds as many item rows as its categories have items |
| MenuFacts.ItemsSum | menu.js:82-180 | item rows add up across cards to the total item count |
| MenuFacts.TitlesAcrossCards | menu.js:86-89 | the card titles follow the categories' names in order |
| MenuFacts.EmptyStateIff | menu.js:77-80 | the empty-state message `Kategori bulunamadı.` appears, once, iff the document has no categories |
| MenuFacts.RenderedCards | menu.js:82-180 | when `render` completes, the container holds one card per category, in order, titled after it, and as many rows as there are items |
| Header.TableText | menu.js:52-53 | `Masa: <t>` for a non-empty `t`, nothing otherwise |
| Header.Toggle | menu.js:43-51 | a guarded element throws iff its value is a truthy non-string; it is shown with the value iff the value is non-blank after trimming; otherwise it is hidden and keeps its content |
| Header.HeaderAfter | menu.js:42 | the name is always written: `name`, or `Menü` when it is falsy |
| Header.HeaderAfterSteps | menu.js:35-69 | `setHeader` returns normally iff no `trim` throws; the logo and table are written unless the logo throws; the address unless a `trim` up to it throws; the phone only when nothing throws |
| Header.HeaderIgnoresPrevious | menu.js:35-69 | a completed `setHeader` shows the same name, table and visible elements, whatever the header held before |
| Header.HeaderIdempotent | menu.js:35-69 | calling `setHeader` twice with the same arguments is calling it once |
| Header.ToggleIdempotent | menu.js:43-51 | applying a guarded element's update twice is applying it once |
| Header.FallbackHeader | menu.js:229 | `setHeader({name: 'Menü'})` shows the default name and the table, and hides logo, address and phone |
| Theme.Assigned | menu.js:193-207 | a CSS variable is assigned iff its palette key has a truthy value, and it is assigned that value |
| Theme.Themed | menu.js:183-187 | a falsy palette leaves the style unchanged |
| Theme.ThemedAssigns | menu.js:183-210 | each variable is set iff it was set before or is assigned; an assigned variable takes its value and every other variable keeps its old one; the body background and colour follow `--bg` and `--text` |
| Theme.FalsyHasNoFields | menu.js:184-187 | a falsy palette assigns no variable |
| Theme.ThemedVarsHas | menu.js:193-207 | after the seven conditional assignments, a variable is set iff it was set before or is assigned |
| Theme.ThemedVarsValue | menu.js:193-207 | after the seven conditional assignments, a variable holds its assigned value, or else its old one |
| Theme.ThemedIdempotent | menu.js:183-210 | applying the same palette twice is applying it once |
| Theme.ThemedByAssigned | menu.js:183-210 | palettes that assign the same values give the same style, whatever other keys they carry |
| MenuApp.ErrorMarkup | menu.js:231 | the catch branch's markup is the opening `empty` div, the message, the source URL verbatim and the closing tag |
| MenuApp.ErrorMarkupPlainIff | menu.js:231 | that markup is one text-only div iff no `<` in the source URL opens markup, that is, no `<` is followed by an ASCII letter, `/`, `!` or `?` (the HTML tokenizer's tag open state) |
| MenuApp.ErrorMarkupStrayLessThan | menu.js:231 | a `<` that opens nothing, as in the source `x<1`, leaves the markup a text-only div |
| MenuApp.ErrorMarkupInjects | menu.js:231 | a `src` parameter holding an `img` element with an `onerror` handler reaches the markup verbatim, where its `<i` opens a tag |
| MenuApp.ErrorPlaceholder | menu.js:231 | the corrected placeholder is a single text element with no children |
| MenuApp.ErrorPlaceholderShowsSource | menu.js:231 | the placeholder is the one `empty` element, and its text ends with the source URL |
| MenuApp.Fallback | menu.js:228-231 | the catch branch shows the default name, hides logo, address and phone, keeps the theme and leaves only the error placeholder in the container |
| MenuApp.InitSpec | menu.js:212-234 | a failed fetch gives the fallback page |
| MenuApp.InitLoads | menu.js:213-227 | a document that loads and renders gives its restaurant's header, its theme and its rendered categories |
| MenuApp.InitFailureShowsSource | menu.js:228-231 | on any failure (fetch, header or render), the page shows the default name and exactly one `empty` element, whose text names the source |
| MenuApp.InitIdempotent | menu.js:212-234 | running `init` again with the same source and fetch outcome leaves the page as it is |
| MenuApp.FallbackAbsorbs | menu.js:217-229 | after a header that throws and the fallback, a second round reaches the same header |
| MenuApp.FallbackKeepsHeader | menu.js:217-229 | a header that completes, applied over its own fallback, is restored unchanged |
| MenuApp.ShowIfNonBlank | menu.js:43-51 | one guarded element: it fails iff `trim` throws, else it is shown or hidden as `Toggle` says |
| MenuApp.SetProperty | menu.js:197 | one `if (colors[key]) setProperty(name, …)` step |
| MenuApp.Page.SetHeader | menu.js:35-69 | updating the header fields in place reaches `HeaderAfter`'s header and result, and leaves the style and categories alone |
| MenuApp.Page.ApplyThemeColors | menu.js:183-210 | updating the style in place reaches `Themed`, and leaves the header and categories alone |
| MenuApp.Page.Render | menu.js:71-181 | clearing the container and appending cards reaches `Rendered`'s container and result, and leaves the header and style alone |
| MenuApp.Page.Init | menu.js:212-234 | the page after `init` is `InitSpec` of the page before, for the resolved source and the fetch outcome |

## Left out

- Networking: `fetch`, `await`, the `no-store` cache option and `res.json()` are not modelled. `Init` takes the fetch as a parameter that maps a URL to a document or a `FetchError` (an HTTP status, a network failure or a body that is not JSON).
- Numbers are exact reals with a single zero (`Js.Number`). The script passes IEEE doubles to `Intl.NumberFormat` (menu.js:23), including `-0`, which it may format differently from `0`. Rounding and the sign of zero are not modelled.
- `Intl.NumberFormat` and the string conversion of template literals are host functions (`Render.Host`). Their output is not modelled.
- The page URL: `URLSearchParams` and `window.location.hostname` are inputs. `src` and `t` arrive as `URLSearchParams.get` results, and `hostname` as a string.
- Image loading: the `onerror` and `onload` callbacks, and the `complete`/`naturalHeight` check, only set display styles after the image loads. They are not modelled; the logo's load-failure handler is left out the same way.
- `console.log`, `console.warn` and `console.error` are left out.
- `updatedAt` is passed to `setHeader` but never read, so it is left out.
- DOM string conversion is not modelled. An element's text is the value assigned to `textContent`, before the DOM turns it into a string (for example, `null` would become empty). CSS values are stored as given.
- The `data:image` branch (menu.js:111-117) assigns the same `src` as the other branch, so the model has one branch.
- The model does not require document fields to be strings. A truthy non-string passed to `.trim()` (for `logo`, `address`, `phone` or `image`) throws a TypeError, and the model follows that path. A header that throws, or a render that throws, ends in `init`'s catch branch.
- `window.MenuApp = { init }` is the only export, so `Page.Init` is the entry point.
- MenuApp.InitSpec: uses the corrected error placeholder (a text element) instead of the markup menu.js:231 writes. The markup as written is modelled separately, in `ErrorMarkup`.
- Header.HeaderAfter: its own contract states only the name. The step-by-step facts are stated in `HeaderAfterSteps`.
- Js.Trim: its own contract states blankness, the two non-space ends and that the result is a slice. That only white space is dropped is stated by `TrimDropsOnlySpace`, so that callers of `Trim` do not carry that fact.
- Source.GithubPagesUsesDefault: covers hosts of the form `<user>.github.io` and `localhost`. Other hosts that only contain `github.io` or `localhost` are covered by the contract of `ResolveSourceUrl`, not by this lemma.
- Source.OtherHostUsesLocalPath: proves one host, `example.com`. The general rule for hosts that contain neither `github.io` nor `localhost` is stated by the contract of `ResolveSourceUrl`.
- MenuApp.Fallback: the container holds the corrected placeholder, a text element. menu.js:231 writes markup instead; for a `src` in which a `<` opens markup, or which holds a character reference such as `&amp;`, the real container can differ (see `ErrorMarkupPlainIff`).
- MenuApp.ErrorMarkupPlainIff: decides only whether the markup opens a tag, comment or declaration. In a text-only div a character reference such as `&amp;` still changes the text shown; the rest of the HTML tokenizer is not modelled.
- MenuApp.InitFailureShowsSource: the text shown is the corrected placeholder's. With the markup menu.js:231 writes, a `src` in which a `<` opens markup, or which holds a character reference such as `&amp;`, is parsed as HTML, so the `empty` element's text can differ from the source URL.
- String conversion is assumed to succeed. `textContent`, `alt`, `style.setProperty` and template literals (menu.js:23-25, 42, 88, 94, 119, 148, 159, 169, 194-207) convert a value to a string. For an object whose `toString` and `valueOf` are not callable, that conversion throws, and the model does not follow that path. The lines below name the contracts this limits.
- Render.ItemRow: a row exists unless `trim` throws, assuming every conversion of the item's fields succeeds.
- Render.CategoryCard: the card exists iff no row throws, assuming the conversions of the category's fields succeed.
- Render.Rendered: `render` returns normally iff no category throws, assuming every string conversion succeeds.
- Header.HeaderAfterSteps: `setHeader` returns normally iff no `trim` throws, assuming the conversions of the name and table label succeed.
- MenuApp.InitLoads: "a document that completes" assumes every string conversion in `setHeader`, `render` and `applyThemeColors` succeeds.
- MenuApp.InitFailureShowsSource: "any failure" means a rejected fetch, a `trim` that throws, or a row or card that throws; a failed string conversion is not among them.

## Findings

| source | as written | input that shows it | evidently intended | confidence | as-written member | corrected member |
|---|---|---|---|---|---|---|
| menu.js:231 | the error message splices the source URL into `innerHTML` unescaped | page URL `?src=<img src=x onerror=alert(1)>`, whose fetch fails: the markup then holds an `img` element whose `onerror` script runs | show the source URL as text inside the `empty` div | high (not executed) | MenuApp.ErrorMarkupInjects | MenuApp.ErrorPlaceholderShowsSource |
