/** The page header (`setHeader`): the restaurant name, the logo, the table
    indicator, the address and the phone. Each optional element is shown only
    for a value that is non-blank after trimming; a hidden element keeps
    whatever content it had. */
module Header {
  import opened Js

  /** An element that can be hidden: its content (`src` for the logo,
      `textContent` otherwise) and whether it is displayed. */
  datatype Shown = Shown(content: Value, visible: bool)

  /** The header elements `setHeader` writes. */
  datatype HeaderView = HeaderView(
    name: Value,
    logo: Shown,
    table: string,
    address: Shown,
    phone: Shown)

  const DefaultName: string := "Menü"
  const TablePrefix: string := "Masa: "

  /** The table indicator for the `t` query value: `Masa: <t>` for a
      non-empty value, nothing otherwise. */
  function TableText(t: Option<string>): (r: string)
    ensures t.Some? && t.value != "" ==> r == TablePrefix + t.value
    ensures t.None? || t.value == "" ==> r == ""
  {
    if t.Some? && t.value != "" then TablePrefix + t.value else ""
  }

  /** `if (v && v.trim()) { show v } else { hide }`: `None` when `v.trim()`
      throws because `v` is truthy but not a string. */
  function Toggle(prev: Shown, v: Value): (r: Option<Shown>)
    ensures r.None? <==> Truthy(v) && !v.Str?
    ensures r.Some? ==> (r.value.visible <==> v.Str? && Trim(v.s) != "")
    ensures r.Some? && r.value.visible ==> r.value.content == v
    ensures r.Some? && !r.value.visible ==> r.value.content == prev.content
  {
    match TrimTest(v)
    case Throws => None
    case NonBlank => Some(Shown(v, true))
    case Blank => Some(Shown(prev.content, false))
  }

  /** The header after `setHeader(info)` with table value `t`, and whether
      the call returned normally: it sets the name, then the logo, the
      table, the address and the phone, in that order, and stops at the
      first `trim` that throws, keeping what it had already written. */
  function HeaderAfter(h: HeaderView, info: Value, t: Option<string>): (r: (HeaderView, bool))
    ensures r.0.name == Or(Field(info, "name"), Str(DefaultName))
  {
    var name := Or(Field(info, "name"), Str(DefaultName));
    match Toggle(h.logo, Field(info, "logo"))
    case None => (h.(name := name), false)
    case Some(logo) =>
      var table := TableText(t);
      match Toggle(h.address, Field(info, "address"))
      case None => (h.(name := name, logo := logo, table := table), false)
      case Some(address) =>
        match Toggle(h.phone, Field(info, "phone"))
        case None => (h.(name := name, logo := logo, table := table, address := address), false)
        case Some(phone) => (HeaderView(name, logo, table, address, phone), true)
  }

  /** What each step of `setHeader` leaves: the name always; the logo and
      table unless the logo's `trim` throws; the address unless a `trim`
      before it or its own throws; the phone only when nothing throws. The
      call returns normally exactly when none of the three `trim`s throws. */
  lemma HeaderAfterSteps(h: HeaderView, info: Value, t: Option<string>)
    ensures var r := HeaderAfter(h, info, t);
      var logo, address, phone := Field(info, "logo"), Field(info, "address"), Field(info, "phone");
      && (r.1 <==> TrimTest(logo) != Throws && TrimTest(address) != Throws && TrimTest(phone) != Throws)
      && (TrimTest(logo) == Throws ==> r.0 == h.(name := r.0.name))
      && (TrimTest(logo) != Throws ==> Some(r.0.logo) == Toggle(h.logo, logo) && r.0.table == TableText(t))
      && (TrimTest(logo) != Throws && TrimTest(address) == Throws ==>
            r.0.address == h.address && r.0.phone == h.phone)
      && (TrimTest(logo) != Throws && TrimTest(address) != Throws ==>
            Some(r.0.address) == Toggle(h.address, address))
      && (!r.1 ==> r.0.phone == h.phone)
      && (r.1 ==> Some(r.0.phone) == Toggle(h.phone, phone))
  {
  }

  /** When `setHeader` returns normally, everything it shows is decided by
      `info` and `t` alone: two headers differ afterwards only in the
      content of hidden elements. */
  lemma HeaderIgnoresPrevious(h1: HeaderView, h2: HeaderView, info: Value, t: Option<string>)
    requires HeaderAfter(h1, info, t).1
    ensures var a, b := HeaderAfter(h1, info, t).0, HeaderAfter(h2, info, t).0;
      && HeaderAfter(h2, info, t).1
      && a.name == b.name && a.table == b.table
      && a.logo.visible == b.logo.visible && (a.logo.visible ==> a.logo == b.logo)
      && a.address.visible == b.address.visible && (a.address.visible ==> a.address == b.address)
      && a.phone.visible == b.phone.visible && (a.phone.visible ==> a.phone == b.phone)
  {
    HeaderAfterSteps(h1, info, t);
    HeaderAfterSteps(h2, info, t);
  }

  /** Calling `setHeader` twice with the same arguments leaves the header as
      one call does, and returns the same way. */
  lemma HeaderIdempotent(h: HeaderView, info: Value, t: Option<string>)
    ensures var once := HeaderAfter(h, info, t);
      HeaderAfter(once.0, info, t) == once
  {
    var once := HeaderAfter(h, info, t);
    var h1 := once.0;
    HeaderAfterSteps(h, info, t);
    HeaderAfterSteps(h1, info, t);
    ToggleIdempotent(h.logo, Field(info, "logo"));
    ToggleIdempotent(h.address, Field(info, "address"));
    ToggleIdempotent(h.phone, Field(info, "phone"));
    if TrimTest(Field(info, "logo")) != Throws {
      assert h1.logo == Toggle(h.logo, Field(info, "logo")).value;
      if TrimTest(Field(info, "address")) != Throws {
        assert h1.address == Toggle(h.address, Field(info, "address")).value;
        if TrimTest(Field(info, "phone")) != Throws {
          assert h1.phone == Toggle(h.phone, Field(info, "phone")).value;
        }
      }
    }
  }

  /** Toggling an element twice with the same value is toggling it once. */
  lemma ToggleIdempotent(prev: Shown, v: Value)
    ensures Toggle(prev, v).Some? ==> Toggle(Toggle(prev, v).value, v) == Toggle(prev, v)
  {
  }

  /** The header `init` falls back to: the default name, the table
      indicator, and the logo, address and phone hidden with whatever
      content they had. */
  lemma FallbackHeader(h: HeaderView, t: Option<string>)
    ensures HeaderAfter(h, Obj(map["name" := Str(DefaultName)]), t) ==
      (HeaderView(Str(DefaultName), h.logo.(visible := false), TableText(t),
                  h.address.(visible := false), h.phone.(visible := false)), true)
  {
    var info := Obj(map["name" := Str(DefaultName)]);
    assert Field(info, "name") == Str(DefaultName);
    assert Field(info, "logo") == Undefined;
    assert Field(info, "address") == Undefined;
    assert Field(info, "phone") == Undefined;
  }
}
