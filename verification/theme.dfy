/** The theme (`applyThemeColors`): the palette of a menu document sets CSS
    variables on the root element, and two of its colours also go to the
    body's own style. Only palette keys with a truthy value are applied;
    everything else keeps its previous value. */
module Theme {
  import opened Js

  /** The style state `applyThemeColors` writes: the root element's custom
      properties, the body's `backgroundColor` and the body's `color`. */
  datatype Style = Style(vars: map<string, Value>, background: Value, color: Value)

  /** Which palette key each CSS variable is taken from. */
  const KeyOfVar: map<string, string> := map[
    "--bg" := "bgColor",
    "--card" := "cardColor",
    "--text" := "textColor",
    "--muted" := "mutedColor",
    "--accent" := "accentColor",
    "--border" := "borderColor",
    "--category-text" := "categoryTextColor"]

  /** The value the palette `colors` gives CSS variable `name`, if any: the
      value of the variable's key, when that value is truthy. */
  function Assigned(colors: Value, name: string): (r: Option<Value>)
    ensures r.Some? ==> name in KeyOfVar && r.value == Field(colors, KeyOfVar[name]) && Truthy(r.value)
    ensures r.None? ==> name !in KeyOfVar || !Truthy(Field(colors, KeyOfVar[name]))
  {
    if name in KeyOfVar && Truthy(Field(colors, KeyOfVar[name])) then Some(Field(colors, KeyOfVar[name]))
    else None
  }

  /** `if (colors[key]) root.style.setProperty(name, colors[key])`. */
  function SetIf(vars: map<string, Value>, colors: Value, key: string, name: string): map<string, Value> {
    var v := Field(colors, key);
    if Truthy(v) then vars[name := v] else vars
  }

  /** The root variables after the seven conditional assignments, in the
      order `applyThemeColors` makes them. */
  function ThemedVars(vars: map<string, Value>, colors: Value): map<string, Value> {
    var v1 := SetIf(vars, colors, "bgColor", "--bg");
    var v2 := SetIf(v1, colors, "cardColor", "--card");
    var v3 := SetIf(v2, colors, "textColor", "--text");
    var v4 := SetIf(v3, colors, "mutedColor", "--muted");
    var v5 := SetIf(v4, colors, "accentColor", "--accent");
    var v6 := SetIf(v5, colors, "borderColor", "--border");
    SetIf(v6, colors, "categoryTextColor", "--category-text")
  }

  /** The style after `applyThemeColors(colors)`. */
  function Themed(s: Style, colors: Value): (r: Style)
    ensures !Truthy(colors) ==> r == s
  {
    if !Truthy(colors) then s
    else
      var bg := Field(colors, "bgColor");
      var text := Field(colors, "textColor");
      Style(ThemedVars(s.vars, colors),
        if Truthy(bg) then bg else s.background,
        if Truthy(text) then text else s.color)
  }

  /** Each present palette key sets exactly its own variable, and every other
      variable keeps its previous value; only `bgColor` and `textColor`
      reach the body, as its background and its colour. */
  lemma ThemedAssigns(s: Style, colors: Value)
    ensures var r := Themed(s, colors);
      && (forall name :: name in r.vars <==> name in s.vars || Assigned(colors, name).Some?)
      && (forall name :: name in r.vars ==>
            r.vars[name] == if Assigned(colors, name).Some? then Assigned(colors, name).value else s.vars[name])
      && r.background == (if Assigned(colors, "--bg").Some? then Assigned(colors, "--bg").value else s.background)
      && r.color == (if Assigned(colors, "--text").Some? then Assigned(colors, "--text").value else s.color)
  {
    if Truthy(colors) {
      var r := Themed(s, colors);
      forall name ensures name in r.vars <==> name in s.vars || Assigned(colors, name).Some? {
        ThemedVarsHas(s.vars, colors, name);
      }
      forall name | name in r.vars
        ensures r.vars[name] == if Assigned(colors, name).Some? then Assigned(colors, name).value else s.vars[name]
      {
        ThemedVarsValue(s.vars, colors, name);
      }
    } else {
      FalsyHasNoFields(colors);
    }
  }

  /** A falsy palette is never an object, so it assigns nothing. */
  lemma FalsyHasNoFields(colors: Value)
    requires !Truthy(colors)
    ensures forall name :: Assigned(colors, name).None?
  {
  }

  /** Which root variables are set after the seven assignments. */
  lemma ThemedVarsHas(vars: map<string, Value>, colors: Value, name: string)
    ensures name in ThemedVars(vars, colors) <==> name in vars || Assigned(colors, name).Some?
  {
  }

  /** The value of a root variable after the seven assignments. */
  lemma ThemedVarsValue(vars: map<string, Value>, colors: Value, name: string)
    requires name in ThemedVars(vars, colors)
    ensures ThemedVars(vars, colors)[name] ==
      if Assigned(colors, name).Some? then Assigned(colors, name).value else vars[name]
  {
  }

  /** Applying the same palette twice is applying it once. */
  lemma ThemedIdempotent(s: Style, colors: Value)
    ensures Themed(Themed(s, colors), colors) == Themed(s, colors)
  {
    var once := Themed(s, colors);
    var twice := Themed(once, colors);
    ThemedAssigns(s, colors);
    ThemedAssigns(once, colors);
    assert twice.vars == once.vars;
  }

  /** Two palettes that agree on the value of every variable lead to the
      same style: the result does not depend on which other keys a palette
      carries. */
  lemma ThemedByAssigned(s: Style, c1: Value, c2: Value)
    requires forall name :: Assigned(c1, name) == Assigned(c2, name)
    ensures Themed(s, c1) == Themed(s, c2)
  {
    ThemedAssigns(s, c1);
    ThemedAssigns(s, c2);
    assert Themed(s, c1).vars == Themed(s, c2).vars;
  }
}
