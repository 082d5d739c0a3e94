/**
 * The getters of the fit options panel (kmap/controller/lmfitoptions.py). Each decodes
 * the current text or index of one widget, which is a parameter here.
 */
module LmfitOptions {
  import opened Wrappers

  // ---------------------------------------------------------------- region

  /** `get_region()` for the region combo box showing `text`: the region and whether it is inverted. */
  function GetRegion(text: string): (r: Result<(string, bool), Error>)
    ensures r.Failure? ==> r.error == UnboundLocalError("region")
  {
    if text == "Entire kMap" then Success(("all", false))
    else if text == "Only ROI" then Success(("roi", false))
    else if text == "Only Annulus" then Success(("ring", false))
    else if text == "Except ROI" then Success(("roi", true))
    else if text == "Except Annulus" then Success(("ring", true))
    else Failure(UnboundLocalError("region"))
  }

  /** The combo box item that selects a region, if there is one. */
  function RegionLabel(region: string, inverted: bool): Option<string> {
    match (region, inverted)
    case ("all", false) => Some("Entire kMap")
    case ("roi", false) => Some("Only ROI")
    case ("ring", false) => Some("Only Annulus")
    case ("roi", true) => Some("Except ROI")
    case ("ring", true) => Some("Except Annulus")
    case _ => None
  }

  /** Exactly the five items of the combo box decode; any other text leaves `region` unbound. */
  lemma RegionDomain(text: string)
    ensures GetRegion(text).Success? <==>
      text in ["Entire kMap", "Only ROI", "Only Annulus", "Except ROI", "Except Annulus"]
  {
  }

  /** Decoding an item and looking its label up again gives the item back. */
  lemma RegionLabelOfRegion(text: string)
    requires GetRegion(text).Success?
    ensures RegionLabel(GetRegion(text).value.0, GetRegion(text).value.1) == Some(text)
  {
  }

  /** Every region with a label decodes from that label: the decoding is a bijection onto five pairs. */
  lemma RegionOfRegionLabel(region: string, inverted: bool)
    requires RegionLabel(region, inverted).Some?
    ensures GetRegion(RegionLabel(region, inverted).value) == Success((region, inverted))
  {
  }

  /** An "Except" item selects the region of its "Only" item, inverted; the whole map is never inverted. */
  lemma ExceptInverts(shape: string)
    requires shape == "ROI" || shape == "Annulus"
    ensures GetRegion("Only " + shape).Success? && GetRegion("Except " + shape).Success?
    ensures GetRegion("Except " + shape).value == (GetRegion("Only " + shape).value.0, true)
    ensures !GetRegion("Only " + shape).value.1
    ensures GetRegion("Entire kMap") == Success(("all", false))
  {
    if shape == "ROI" {
      assert "Only " + shape == "Only ROI" && "Except " + shape == "Except ROI";
    } else {
      assert "Only " + shape == "Only Annulus" && "Except " + shape == "Except Annulus";
    }
  }

  // ---------------------------------------------------------------- method

  /** `s.find(c)`: the index of the first `c` in `s`, or -1. */
  function FindChar(s: string, c: char): (r: int)
    ensures -1 <= r < |s|
    ensures r >= 0 ==> s[r] == c && forall k :: 0 <= k < r ==> s[k] != c
    ensures r == -1 ==> forall k :: 0 <= k < |s| ==> s[k] != c
  {
    if s == [] then -1
    else if s[0] == c then 0
    else
      var r := FindChar(s[1..], c);
      if r < 0 then -1 else r + 1
  }

  /** The position Python's slicing uses for a bound `i` of a sequence of length `n`. */
  function SliceBound(i: int, n: nat): (b: nat)
    ensures b <= n
    ensures 0 <= i <= n ==> b == i
    ensures -(n as int) <= i < 0 ==> b == i + n
  {
    if i < 0 then (if i + n < 0 then 0 else i + n)
    else if i > n then n
    else i
  }

  /** `s[start:stop]`. */
  function PySlice(s: string, start: int, stop: int): string {
    var a := SliceBound(start, |s|);
    var b := SliceBound(stop, |s|);
    if a < b then s[a..b] else ""
  }

  /** `get_method()` for the method combo box showing `text`. */
  function GetMethod(text: string): string {
    PySlice(text, FindChar(text, '(') + 1, FindChar(text, ')'))
  }

  /** With '(' before the first ')', the method is the text strictly between them. */
  lemma MethodBetween(text: string)
    requires 0 <= FindChar(text, '(') < FindChar(text, ')')
    ensures GetMethod(text) == text[FindChar(text, '(') + 1..FindChar(text, ')')]
  {
  }

  /** Without '(' the method starts at the beginning of the text. */
  lemma MethodWithoutOpen(text: string)
    requires FindChar(text, '(') == -1 && FindChar(text, ')') >= 0
    ensures GetMethod(text) == text[..FindChar(text, ')')]
  {
  }

  /** Without ')' the bound -1 of `find` cuts off the last character. */
  lemma MethodWithoutClose(text: string)
    requires FindChar(text, ')') == -1
    ensures var a := FindChar(text, '(') + 1;
      GetMethod(text) == if a < |text| - 1 then text[a..|text| - 1] else ""
  {
  }

  /** With the first ')' before the first '(' the method is empty. */
  lemma MethodReversed(text: string)
    requires 0 <= FindChar(text, ')') < FindChar(text, '(')
    ensures GetMethod(text) == ""
  {
  }

  /** The method never contains ')'. */
  lemma MethodHasNoClose(text: string)
    ensures ')' !in GetMethod(text)
  {
    var a := SliceBound(FindChar(text, '(') + 1, |text|);
    var b := SliceBound(FindChar(text, ')'), |text|);
    if a < b {
      assert forall k :: a <= k < b ==> text[k] != ')';
      assert forall k :: 0 <= k < b - a ==> GetMethod(text)[k] == text[a + k];
    }
  }

  lemma {:induction false} FindCharAppend(s: string, t: string, c: char)
    ensures FindChar(s + t, c) ==
      if FindChar(s, c) >= 0 then FindChar(s, c)
      else if FindChar(t, c) >= 0 then |s| + FindChar(t, c)
      else -1
  {
    if s == [] {
      assert s + t == t;
    } else {
      assert (s + t)[1..] == s[1..] + t;
      FindCharAppend(s[1..], t, c);
    }
  }

  /** The first `c` of `s + [c] + t` when `s` has none is the one after `s`. */
  lemma FindFirst(s: string, c: char, t: string)
    requires c !in s
    ensures FindChar(s + [c] + t, c) == |s|
  {
    assert s + [c] + t == s + ([c] + t);
    FindCharAppend(s, [c] + t, c);
  }

  /** An item written `name(m)...`, with no parentheses in `name` and no ')' in `m`, decodes to `m`. */
  lemma MethodOfItem(name: string, m: string, rest: string)
    requires '(' !in name && ')' !in name && ')' !in m
    ensures GetMethod(name + "(" + m + ")" + rest) == m
  {
    var prefix := name + "(" + m;
    var text := prefix + ")" + rest;
    assert name + "(" + m + ")" + rest == text;
    assert text == name + "(" + (m + ")" + rest);
    FindFirst(name, '(', m + ")" + rest);
    assert ')' !in prefix;
    FindFirst(prefix, ')', rest);
    MethodBetween(text);
    assert text[|name| + 1..|name| + 1 + |m|] == m;
  }

  // ---------------------------------------------------------------- slice policy

  /** `get_slice_policy()` for the slice combo box's current index (-1 when nothing is selected). */
  function GetSlicePolicy(index: int): (r: string)
    ensures r == "only one" || r == "all" || r == "all combined"
    ensures r == "only one" <==> index == 0
    ensures r == "all" <==> index == 1
  {
    if index == 0 then "only one"
    else if index == 1 then "all"
    else "all combined"
  }

  /** The combo box index of a policy. */
  function PolicyIndex(policy: string): Option<int> {
    if policy == "only one" then Some(0)
    else if policy == "all" then Some(1)
    else if policy == "all combined" then Some(2)
    else None
  }

  /** Every index decodes to one of the three policies, each reached from its own index. */
  lemma SlicePolicyRoundTrip(index: int, policy: string)
    ensures PolicyIndex(GetSlicePolicy(index)).Some?
    ensures PolicyIndex(policy).Some? ==> GetSlicePolicy(PolicyIndex(policy).value) == policy
    ensures GetSlicePolicy(index) == "all combined" <==> index != 0 && index != 1
  {
  }

  // ---------------------------------------------------------------- background

  /** `get_background()`: the equation typed into the line edit, unchanged, and no variables. */
  function GetBackground(equation: string): (r: (string, seq<string>))
    ensures r.0 == equation && r.1 == []
  {
    (equation, [])
  }
}
