/** The slice of JavaScript semantics that menu.js relies on: the values a
    parsed JSON document (and a property read on it) can produce, truthiness,
    the `||` default idiom, optional property access, `String.prototype.trim`
    and `String.prototype.includes`. */
module Js {

  datatype Option<T> = None | Some(value: T)

  /** A JavaScript number. JSON text yields finite numbers and, on overflow
      (`1e400`), infinities; NaN cannot come from JSON but is kept so that
      truthiness is total. Both zeros are `Finite(0.0)`. */
  datatype Number = Finite(r: real) | Infinity(negative: bool) | NaN

  /** A JavaScript value as produced by `JSON.parse` and by property reads
      on its result. `Undefined` never occurs inside a parsed document; it is
      what a read of a missing property gives. */
  datatype Value =
    | Undefined
    | Null
    | Bool(b: bool)
    | Num(n: Number)
    | Str(s: string)
    | Arr(elems: seq<Value>)
    | Obj(fields: map<string, Value>)

  /** ECMAScript ToBoolean. */
  predicate Truthy(v: Value) {
    match v
    case Undefined => false
    case Null => false
    case Bool(b) => b
    case Num(n) => (n.Finite? && n.r != 0.0) || n.Infinity?
    case Str(s) => s != ""
    case Arr(_) => true
    case Obj(_) => true
  }

  /** The falsy values are exactly undefined, null, false, 0, NaN and "". */
  lemma FalsyValues(v: Value)
    ensures !Truthy(v) <==>
      v == Undefined || v == Null || v == Bool(false) ||
      v == Num(Finite(0.0)) || v == Num(NaN) || v == Str("")
  {
  }

  /** `a || b`: the left operand when it is truthy, otherwise the right one. */
  function Or(a: Value, b: Value): (r: Value)
    ensures r == a || r == b
    ensures Truthy(a) ==> r == a
    ensures !Truthy(a) ==> r == b
    ensures Truthy(b) ==> Truthy(r)
  {
    if Truthy(a) then a else b
  }

  /** `v?.key` for the data property names menu.js reads: a missing key, and
      any receiver that is not an object, give `undefined`. (None of those
      names is a property of the String, Number, Boolean or Array
      prototypes.) */
  function Field(v: Value, key: string): (r: Value)
    ensures !v.Obj? ==> r == Undefined
    ensures v.Obj? && key !in v.fields ==> r == Undefined
    ensures v.Obj? && key in v.fields ==> r == v.fields[key]
  {
    if v.Obj? && key in v.fields then v.fields[key] else Undefined
  }

  /** The characters `trim` removes: WhiteSpace and LineTerminator of
      section 12.2 and 12.3 of ECMA-262 (TAB, VT, FF, ZWNBSP, the Zs
      space separators, LF, CR, LS, PS). */
  predicate IsSpace(c: char) {
    c == '\t' || c == '\n' || c == '\U{B}' || c == '\U{C}' || c == '\r' ||
    c == ' ' || c == '\U{A0}' || c == '\U{1680}' ||
    ('\U{2000}' <= c <= '\U{200A}') ||
    c == '\U{2028}' || c == '\U{2029}' || c == '\U{202F}' ||
    c == '\U{205F}' || c == '\U{3000}' || c == '\U{FEFF}'
  }

  predicate AllSpace(s: string) {
    forall i :: 0 <= i < |s| ==> IsSpace(s[i])
  }

  /** Drops leading white space; the result is the suffix of `s` that starts
      at its first non-space character. */
  function TrimStart(s: string): (r: string)
    ensures |r| <= |s| && r == s[|s| - |r|..]
    ensures AllSpace(s[..|s| - |r|])
    ensures r != "" ==> !IsSpace(r[0])
  {
    if |s| > 0 && IsSpace(s[0]) then TrimStart(s[1..]) else s
  }

  /** Drops trailing white space; the result is the prefix of `s` that ends
      at its last non-space character. */
  function TrimEnd(s: string): (r: string)
    ensures |r| <= |s| && r == s[..|r|]
    ensures AllSpace(s[|r|..])
    ensures r != "" ==> !IsSpace(r[|r| - 1])
  {
    if |s| > 0 && IsSpace(s[|s| - 1]) then TrimEnd(s[..|s| - 1]) else s
  }

  /** `String.prototype.trim`: drops white space at both ends and nothing
      else. */
  function Trim(s: string): (r: string)
    ensures r == "" <==> AllSpace(s)
    ensures r != "" ==> !IsSpace(r[0]) && !IsSpace(r[|r| - 1])
    ensures Includes(s, r)
  {
    TrimIsInnerSlice(s);
    TrimBlankIffAllSpace(s);
    TrimEnd(TrimStart(s))
  }

  /** `r` is `s` with white space only before index `lo` and after `r`. */
  predicate SpaceAround(s: string, r: string, lo: int) {
    && 0 <= lo <= |s| - |r|
    && s[lo..lo + |r|] == r
    && AllSpace(s[..lo])
    && AllSpace(s[lo + |r|..])
  }

  /** `trim` removes white space at the two ends and nothing else: its
      result sits in `s` with only white space before and after it. */
  lemma TrimDropsOnlySpace(s: string)
    ensures exists lo :: SpaceAround(s, Trim(s), lo)
  {
    SpaceAroundSlice(s, TrimStart(s), TrimEnd(TrimStart(s)));
    assert SpaceAround(s, Trim(s), |s| - |TrimStart(s)|);
  }

  /** A prefix `r` of a suffix `a` of `s`, where `s` has only white space
      before `a` and `a` only white space after `r`. */
  lemma SpaceAroundSlice(s: string, a: string, r: string)
    requires |a| <= |s| && a == s[|s| - |a|..] && AllSpace(s[..|s| - |a|])
    requires |r| <= |a| && r == a[..|r|] && AllSpace(a[|r|..])
    ensures SpaceAround(s, r, |s| - |a|)
  {
    var lo := |s| - |a|;
    SliceOfSuffix(s, a, r);
    forall i | lo + |r| <= i < |s| ensures IsSpace(s[i]) {
      assert s[i] == a[|r|..][i - lo - |r|];
    }
  }

  /** Trimming keeps a contiguous slice of `s`. */
  lemma TrimIsInnerSlice(s: string)
    ensures Includes(s, TrimEnd(TrimStart(s)))
  {
    var a := TrimStart(s);
    var r := TrimEnd(a);
    SliceOfSuffix(s, a, r);
    assert OccursAt(s, r, |s| - |a|);
  }

  /** Trimming leaves nothing exactly when `s` is all white space. */
  lemma TrimBlankIffAllSpace(s: string)
    ensures TrimEnd(TrimStart(s)) == "" <==> AllSpace(s)
  {
    var a := TrimStart(s);
    var r := TrimEnd(a);
    var lo := |s| - |a|;
    if r == "" {
      assert a[|r|..] == a == s[lo..];
      BlankWhenBothEndsBlank(s, lo);
    } else {
      SliceOfSuffix(s, a, r);
      assert r[0] == s[lo] && !IsSpace(s[lo]);
    }
  }

  lemma SliceOfSuffix(s: string, a: string, r: string)
    requires |a| <= |s| && a == s[|s| - |a|..]
    requires |r| <= |a| && r == a[..|r|]
    ensures r == s[|s| - |a|..|s| - |a| + |r|]
  {
  }

  lemma BlankWhenBothEndsBlank(s: string, lo: nat)
    requires lo <= |s|
    requires AllSpace(s[..lo]) && AllSpace(s[lo..])
    ensures AllSpace(s)
  {
    forall i | 0 <= i < |s| ensures IsSpace(s[i]) {
      if i < lo {
        assert s[..lo][i] == s[i];
      } else {
        assert s[lo..][i - lo] == s[i];
      }
    }
  }

  /** `sub` occurs in `s` starting at index `i`. */
  predicate OccursAt(s: string, sub: string, i: int) {
    0 <= i <= |s| - |sub| && s[i..i + |sub|] == sub
  }

  /** `String.prototype.includes`. */
  predicate Includes(s: string, sub: string) {
    exists i :: 0 <= i <= |s| - |sub| && OccursAt(s, sub, i)
  }

  /** What `v && v.trim()` does in a condition: a falsy value is blank, a
      string is blank iff it is empty after trimming, and any other truthy
      value has no `trim` method, so the call throws a TypeError. */
  datatype Check = Blank | NonBlank | Throws

  function TrimTest(v: Value): (c: Check)
    ensures c == Throws <==> Truthy(v) && !v.Str?
    ensures c == NonBlank <==> v.Str? && !AllSpace(v.s)
    ensures c == NonBlank <==> v.Str? && Trim(v.s) != ""
  {
    if !Truthy(v) then Blank
    else if !v.Str? then Throws
    else if Trim(v.s) != "" then NonBlank
    else Blank
  }
}
