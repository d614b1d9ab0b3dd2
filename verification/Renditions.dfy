/**
 * Character attributes and their SGR control sequences
 * (alfalfa/src/terminal/terminalframebuffer.cc, terminalfunctions.cc).
 */
module TerminalRenditions {

  datatype Renditions = Renditions(bold: bool, underlined: bool, blink: bool, inverse: bool, invisible: bool,
                                   foreground: int, background: int)

  /** No attribute but a background color. */
  function Plain(background: int): Renditions {
    Renditions(false, false, false, false, false, 0, background)
  }

  /** Colors are 0 for the default, or 30 + n (foreground) and 40 + n (background) for color n of 256. */
  predicate Valid(r: Renditions) {
    ValidForeground(r.foreground) && ValidBackground(r.background)
  }

  predicate ValidForeground(color: int) {
    color == 0 || 30 <= color <= 285
  }

  predicate ValidBackground(color: int) {
    color == 0 || 40 <= color <= 295
  }

  function SetRendition(r: Renditions, num: int): Renditions {
    if num == 0 then Plain(0)
    else if num == 39 then r.(foreground := 0)
    else if num == 49 then r.(background := 0)
    else if 30 <= num <= 37 then r.(foreground := num)
    else if 40 <= num <= 47 then r.(background := num)
    else if 90 <= num <= 97 then r.(foreground := num - 90 + 38)
    else if 100 <= num <= 107 then r.(background := num - 100 + 48)
    else SetAttribute(r, num)
  }

  function SetAttribute(r: Renditions, num: int): Renditions {
    if num == 1 || num == 22 then r.(bold := num == 1)
    else if num == 4 || num == 24 then r.(underlined := num == 4)
    else if num == 5 || num == 25 then r.(blink := num == 5)
    else if num == 7 || num == 27 then r.(inverse := num == 7)
    else if num == 8 || num == 28 then r.(invisible := num == 8)
    else r
  }

  function SetForeground(r: Renditions, num: int): Renditions {
    if 0 <= num <= 255 then r.(foreground := 30 + num) else r
  }

  function SetBackground(r: Renditions, num: int): Renditions {
    if 0 <= num <= 255 then r.(background := 40 + num) else r
  }

  /** A parameter of a control sequence; absent and non-positive ones take the default. */
  function Param(params: seq<int>, n: nat, default: int): int {
    if n < |params| && params[n] >= 1 then params[n] else default
  }

  function SetAll(r: Renditions, params: seq<int>): Renditions {
    if params == [] then r
    else SetRendition(SetAll(r, params[..|params| - 1]), Param(params, |params| - 1, 0))
  }

  /** What a control sequence ending in m does. */
  function ApplySgr(r: Renditions, params: seq<int>): Renditions {
    if |params| == 3 && Param(params, 0, -1) == 38 && Param(params, 1, -1) == 5 then
      SetForeground(r, Param(params, 2, 0))
    else if |params| == 3 && Param(params, 0, -1) == 48 && Param(params, 1, -1) == 5 then
      SetBackground(r, Param(params, 2, 0))
    else
      SetAll(r, params)
  }

  function Flag(on: bool, num: int): seq<int> {
    if on then [num] else []
  }

  /** The first sequence: attributes, and the colors of the 8-color set. */
  function Attributes(r: Renditions): seq<int> {
    [0] + Flag(r.bold, 1) + Flag(r.underlined, 4) + Flag(r.blink, 5) + Flag(r.inverse, 7) + Flag(r.invisible, 8)
    + Flag(r.foreground != 0 && r.foreground <= 37, r.foreground)
    + Flag(r.background != 0 && r.background <= 47, r.background)
  }

  /** The control sequences that select these renditions. */
  function Sgr(r: Renditions): seq<seq<int>> {
    [Attributes(r)]
    + (if r.foreground > 37 then [[38, 5, r.foreground - 30]] else [])
    + (if r.background > 47 then [[48, 5, r.background - 40]] else [])
  }

  function ApplyAll(r: Renditions, sequences: seq<seq<int>>): Renditions {
    if sequences == [] then r
    else ApplySgr(ApplyAll(r, sequences[..|sequences| - 1]), sequences[|sequences| - 1])
  }

  // ---------------------------------------------------------------- properties

  lemma SetAttributeKeepsColors(r: Renditions, num: int)
    ensures SetAttribute(r, num).foreground == r.foreground && SetAttribute(r, num).background == r.background
  {
  }

  lemma SetRenditionKeepsValid(r: Renditions, num: int)
    requires Valid(r)
    ensures Valid(SetRendition(r, num))
  {
    hide SetAttribute, ValidForeground, ValidBackground;
    SetAttributeKeepsColors(r, num);
    ColorsAreValid(num);
  }

  lemma ColorsAreValid(num: int)
    ensures ValidForeground(0) && ValidBackground(0)
    ensures 30 <= num <= 37 ==> ValidForeground(num)
    ensures 40 <= num <= 47 ==> ValidBackground(num)
    ensures 90 <= num <= 97 ==> ValidForeground(num - 90 + 38)
    ensures 100 <= num <= 107 ==> ValidBackground(num - 100 + 48)
    ensures 0 <= num <= 255 ==> ValidForeground(30 + num) && ValidBackground(40 + num)
  {
  }

  lemma {:induction false} SetAllKeepsValid(r: Renditions, params: seq<int>)
    requires Valid(r)
    ensures Valid(SetAll(r, params))
  {
    if params != [] {
      SetAllKeepsValid(r, params[..|params| - 1]);
      SetRenditionKeepsValid(SetAll(r, params[..|params| - 1]), Param(params, |params| - 1, 0));
    }
  }

  /** Every renditions value that control sequences can produce has valid colors. */
  lemma ApplySgrKeepsValid(r: Renditions, params: seq<int>)
    requires Valid(r)
    ensures Valid(ApplySgr(r, params))
  {
    hide SetAll, Param, ValidForeground, ValidBackground;
    SetAllKeepsValid(r, params);
    ColorsAreValid(Param(params, 2, 0));
  }

  lemma SetFlag(r: Renditions, p: seq<int>, on: bool, num: int)
    ensures SetAll(r, p + Flag(on, num))
         == if on then SetRendition(SetAll(r, p), if num >= 1 then num else 0) else SetAll(r, p)
  {
    hide SetRendition;
    if on {
      assert (p + [num])[..|p|] == p;
    } else {
      assert p + [] == p;
    }
  }

  lemma AttributesApply(r0: Renditions, r: Renditions)
    requires Valid(r)
    ensures SetAll(r0, Attributes(r)) == r.(foreground := if r.foreground <= 37 then r.foreground else 0,
                                            background := if r.background <= 47 then r.background else 0)
  {
    hide SetAll, Flag;
    var p0 := [0];
    assert SetAll(r0, p0) == Plain(0) by { SetFlag(r0, [], true, 0); assert [] + Flag(true, 0) == p0 by { FlagOn(0); } }
    var p1 := p0 + Flag(r.bold, 1);
    SetFlag(r0, p0, r.bold, 1);
    var p2 := p1 + Flag(r.underlined, 4);
    SetFlag(r0, p1, r.underlined, 4);
    var p3 := p2 + Flag(r.blink, 5);
    SetFlag(r0, p2, r.blink, 5);
    var p4 := p3 + Flag(r.inverse, 7);
    SetFlag(r0, p3, r.inverse, 7);
    var p5 := p4 + Flag(r.invisible, 8);
    SetFlag(r0, p4, r.invisible, 8);
    var p6 := p5 + Flag(r.foreground != 0 && r.foreground <= 37, r.foreground);
    SetFlag(r0, p5, r.foreground != 0 && r.foreground <= 37, r.foreground);
    SetFlag(r0, p6, r.background != 0 && r.background <= 47, r.background);
  }

  lemma FlagOn(num: int)
    ensures Flag(true, num) == [num]
  {
  }

  /** Whatever was selected before, the sequences of r select exactly r. */
  lemma SgrRoundTrip(r0: Renditions, r: Renditions)
    requires Valid(r)
    ensures ApplyAll(r0, Sgr(r)) == r
  {
    hide SetAll, Attributes, ApplySgr, ApplyAll;
    AttributesApply(r0, r);
    var s0 := [Attributes(r)];
    assert ApplyAll(r0, s0) == SetAll(r0, Attributes(r)) by { FirstSequence(r0, r); }
    var s1 := s0 + (if r.foreground > 37 then [[38, 5, r.foreground - 30]] else []);
    if r.foreground > 37 {
      LastSequence(r0, s0, [38, 5, r.foreground - 30]);
      ColorSequence(ApplyAll(r0, s0), r.foreground - 30);
    } else {
      assert s1 == s0;
    }
    if r.background > 47 {
      LastSequence(r0, s1, [48, 5, r.background - 40]);
      ColorSequence(ApplyAll(r0, s1), r.background - 40);
    } else {
      assert Sgr(r) == s1;
    }
  }

  lemma FirstSequence(r0: Renditions, r: Renditions)
    ensures ApplyAll(r0, [Attributes(r)]) == SetAll(r0, Attributes(r))
  {
    hide SetAll, Attributes;
    AttributesReset(r);
    var s := [Attributes(r)];
    assert s[..0] == [];
    assert ApplyAll(r0, s[..0]) == r0;
  }

  lemma LastSequence(r0: Renditions, s: seq<seq<int>>, p: seq<int>)
    ensures ApplyAll(r0, s + [p]) == ApplySgr(ApplyAll(r0, s), p)
  {
    hide ApplySgr;
    assert (s + [p])[..|s|] == s;
  }

  lemma ColorSequence(r: Renditions, num: int)
    requires 0 <= num
    ensures ApplySgr(r, [38, 5, num]) == SetForeground(r, num)
    ensures ApplySgr(r, [48, 5, num]) == SetBackground(r, num)
  {
    hide SetAll;
  }

  lemma AttributesReset(r: Renditions)
    ensures |Attributes(r)| > 0 && Attributes(r)[0] == 0
  {
  }

  // ---------------------------------------------------------------- lists of any codes

  datatype Attribute = Bold | Underlined | Blink | Inverse | Invisible

  function OnCode(a: Attribute): int {
    match a case Bold => 1 case Underlined => 4 case Blink => 5 case Inverse => 7 case Invisible => 8
  }

  function OffCode(a: Attribute): int {
    match a case Bold => 22 case Underlined => 24 case Blink => 25 case Inverse => 27 case Invisible => 28
  }

  predicate Has(r: Renditions, a: Attribute) {
    match a
    case Bold => r.bold
    case Underlined => r.underlined
    case Blink => r.blink
    case Inverse => r.inverse
    case Invisible => r.invisible
  }

  /** Parameter i sets the attribute, takes it away, or resets everything. */
  predicate Decides(params: seq<int>, i: nat, a: Attribute) {
    Param(params, i, 0) in {0, OnCode(a), OffCode(a)}
  }

  lemma OneDecides(r: Renditions, num: int, a: Attribute)
    ensures Has(SetRendition(r, num), a)
        <==> if num in {0, OnCode(a), OffCode(a)} then num == OnCode(a) else Has(r, a)
  {
  }

  /** Whatever else is in a list, an attribute is as the last parameter about it says, or as it was. */
  lemma {:induction false} LastDecides(r: Renditions, params: seq<int>, a: Attribute)
    ensures (forall i | 0 <= i < |params| :: !Decides(params, i, a)) ==> Has(SetAll(r, params), a) == Has(r, a)
    ensures forall i | 0 <= i < |params| && Decides(params, i, a)
              && forall j | i < j < |params| :: !Decides(params, j, a) ::
              Has(SetAll(r, params), a) <==> Param(params, i, 0) == OnCode(a)
  {
    hide SetRendition, Has, Param;
    if params != [] {
      var n := |params| - 1;
      var init := params[..n];
      LastDecides(r, init, a);
      OneDecides(SetAll(r, init), Param(params, n, 0), a);
      assert forall i | 0 <= i < n :: Param(init, i, 0) == Param(params, i, 0) by { SameParams(params, n); }
      assert forall i | 0 <= i < n :: Decides(init, i, a) == Decides(params, i, a);
      assert Decides(params, n, a) <==> Param(params, n, 0) in {0, OnCode(a), OffCode(a)};
    }
  }

  lemma SameParams(params: seq<int>, n: nat)
    requires n <= |params|
    ensures forall i | 0 <= i < n :: Param(params[..n], i, 0) == Param(params, i, 0)
  {
  }

  // ---------------------------------------------------------------- colours of a list

  datatype Layer = Foreground | Background

  function ColourIn(r: Renditions, layer: Layer): int {
    if layer == Foreground then r.foreground else r.background
  }

  /** The first code of a layer's eight colours; its default is 9 further on, its bright colours 60. */
  function FirstColour(layer: Layer): int {
    if layer == Foreground then 30 else 40
  }

  /** The code selects a colour of the layer: the default, one of eight, or one of eight bright ones. */
  predicate Paints(num: int, layer: Layer) {
    var first := FirstColour(layer);
    num == 0 || num == first + 9 || first <= num < first + 8 || first + 60 <= num < first + 68
  }

  /** The colour selected: 0 for the default, and the bright ones follow the eight. */
  function Painted(num: int, layer: Layer): int {
    var first := FirstColour(layer);
    if num == 0 || num == first + 9 then 0 else if num < first + 8 then num else num - 60 + 8
  }

  lemma OnePaints(r: Renditions, num: int, layer: Layer)
    ensures ColourIn(SetRendition(r, num), layer)
         == if Paints(num, layer) then Painted(num, layer) else ColourIn(r, layer)
  {
    hide SetAttribute;
    SetAttributeKeepsColors(r, num);
  }

  /** Parameter i selects a colour of the layer. */
  predicate PaintsAt(params: seq<int>, i: nat, layer: Layer) {
    Paints(Param(params, i, 0), layer)
  }

  /** Whatever else is in a list, a colour is what the last parameter about it selects, or as it was. */
  lemma {:induction false} LastPaints(r: Renditions, params: seq<int>, layer: Layer)
    ensures (forall i | 0 <= i < |params| :: !PaintsAt(params, i, layer)) ==>
              ColourIn(SetAll(r, params), layer) == ColourIn(r, layer)
    ensures forall i | 0 <= i < |params| && PaintsAt(params, i, layer)
              && forall j | i < j < |params| :: !PaintsAt(params, j, layer) ::
              ColourIn(SetAll(r, params), layer) == Painted(Param(params, i, 0), layer)
  {
    hide SetRendition, Param, Paints, PaintsAt, Painted, ColourIn;
    if params != [] {
      var n := |params| - 1;
      var init := params[..n];
      LastPaints(r, init, layer);
      OnePaints(SetAll(r, init), Param(params, n, 0), layer);
      SamePaints(params, n, layer);
    }
  }

  lemma SamePaints(params: seq<int>, n: nat, layer: Layer)
    requires n < |params|
    ensures forall i | 0 <= i < n :: Param(params[..n], i, 0) == Param(params, i, 0)
    ensures forall i | 0 <= i < n :: PaintsAt(params[..n], i, layer) == PaintsAt(params, i, layer)
    ensures PaintsAt(params, n, layer) == Paints(Param(params, n, 0), layer)
  {
    hide Param, Paints;
    SameParams(params, n);
  }

  /** Three parameters 38 or 48, 5 and a number select that colour of 256 and change nothing else; with a larger number
      they change nothing. Any other list counts parameter by parameter. */
  lemma ManyColours(r: Renditions, params: seq<int>)
    ensures var n := Param(params, 2, 0);
      if |params| == 3 && params[0] == 38 && params[1] == 5 then
        ApplySgr(r, params) == if n <= 255 then r.(foreground := 30 + n) else r
      else if |params| == 3 && params[0] == 48 && params[1] == 5 then
        ApplySgr(r, params) == if n <= 255 then r.(background := 40 + n) else r
      else ApplySgr(r, params) == SetAll(r, params)
  {
    hide SetAll;
  }
}
