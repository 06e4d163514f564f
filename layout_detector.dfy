/** Guessing the layout a piece of text was typed in (`MatchStringToLayout`,
    `DetectStringLayout`). Whether a character can be typed in a layout
    (`VkKeyScanExW(ch, layout) != -1`) is an oracle `maps`; the installed layouts
    (`GetKeyboardLayoutList`) are a parameter. */
module LayoutDetector {
  import opened Common

  /** The score of `layout` for `s`: how many characters of `s` it can type. */
  function Score(maps: (Unit, Hkl) -> bool, s: seq<Unit>, layout: Hkl): (r: nat)
    ensures r <= |s|
    ensures r == 0 <==> forall i :: 0 <= i < |s| ==> !maps(s[i], layout)
    ensures r == |s| <==> forall i :: 0 <= i < |s| ==> maps(s[i], layout)
    decreases |s|
  {
    if s == [] then 0
    else
      var p := s[..|s| - 1];
      assert forall i :: 0 <= i < |p| ==> p[i] == s[i];
      Score(maps, p, layout) + if maps(s[|s| - 1], layout) then 1 else 0
  }

  /** `MatchStringToLayout`: the accumulator loop over the string. */
  method MatchStringToLayout(maps: (Unit, Hkl) -> bool, str: seq<Unit>, layout: Hkl) returns (score: nat)
    ensures score == Score(maps, str, layout)
  {
    score := 0;
    var i := 0;
    while i < |str|
      invariant 0 <= i <= |str|
      invariant score == Score(maps, str[..i], layout)
    {
      assert str[..i + 1][..i] == str[..i];
      score := score + if maps(str[i], layout) then 1 else 0;
      i := i + 1;
    }
    assert str[..i] == str;
  }

  /** The best score over `layouts` (0 for an empty list). */
  function MaxScore(maps: (Unit, Hkl) -> bool, s: seq<Unit>, layouts: seq<Hkl>): (m: nat)
    ensures forall j :: 0 <= j < |layouts| ==> Score(maps, s, layouts[j]) <= m
    ensures m <= |s|
    decreases |layouts|
  {
    if layouts == [] then 0
    else
      var p := layouts[..|layouts| - 1];
      assert forall j :: 0 <= j < |p| ==> p[j] == layouts[j];
      var sc := Score(maps, s, layouts[|layouts| - 1]);
      var m := MaxScore(maps, s, p);
      if sc > m then sc else m
  }

  /** The last index whose layout scores `m`, or -1. */
  function LastWithScore(maps: (Unit, Hkl) -> bool, s: seq<Unit>, layouts: seq<Hkl>, m: nat): (j: int)
    ensures -1 <= j < |layouts|
    ensures 0 <= j ==> Score(maps, s, layouts[j]) == m
    ensures forall k :: j < k < |layouts| ==> Score(maps, s, layouts[k]) != m
    decreases |layouts|
  {
    if layouts == [] then -1
    else if Score(maps, s, layouts[|layouts| - 1]) == m then |layouts| - 1
    else LastWithScore(maps, s, layouts[..|layouts| - 1], m)
  }

  /** The pair (`best_layout`, `best_score`) after the loop of `DetectStringLayout`
      has looked at `layouts`. */
  function Pick(maps: (Unit, Hkl) -> bool, s: seq<Unit>, preferred: Hkl, layouts: seq<Hkl>): (Hkl, nat)
    decreases |layouts|
  {
    if layouts == [] then (HklNull, 0)
    else
      var prev := Pick(maps, s, preferred, layouts[..|layouts| - 1]);
      var l := layouts[|layouts| - 1];
      var sc := Score(maps, s, l);
      if sc > prev.1 || (sc == prev.1 && sc > 0 && prev.0 != preferred) then (l, sc) else prev
  }

  /** What `DetectStringLayout` returns. */
  function Detect(maps: (Unit, Hkl) -> bool, s: seq<Unit>, preferred: Hkl, layouts: seq<Hkl>): Hkl {
    var p := Pick(maps, s, preferred, layouts);
    if p.1 > 0 then p.0 else HklNull
  }

  /** The preferred layout is among the best. */
  predicate PreferredIsBest(maps: (Unit, Hkl) -> bool, s: seq<Unit>, preferred: Hkl, layouts: seq<Hkl>) {
    preferred in layouts && Score(maps, s, preferred) == MaxScore(maps, s, layouts)
  }

  /** The loop keeps the best score seen so far, and a layout that earns it. */
  lemma {:induction false} PickScore(maps: (Unit, Hkl) -> bool, s: seq<Unit>, preferred: Hkl, layouts: seq<Hkl>)
    ensures Pick(maps, s, preferred, layouts).1 == MaxScore(maps, s, layouts)
    ensures var p := Pick(maps, s, preferred, layouts);
      p.1 > 0 ==> p.0 in layouts && Score(maps, s, p.0) == p.1
    decreases |layouts|
  {
    if layouts != [] {
      var q := layouts[..|layouts| - 1];
      assert layouts == q + [layouts[|layouts| - 1]];
      PickScore(maps, s, preferred, q);
    }
  }

  /** When the preferred layout is among the best and the best is not 0, the
      loop ends on the preferred layout. */
  lemma {:induction false} PickPreferred(maps: (Unit, Hkl) -> bool, s: seq<Unit>, preferred: Hkl, layouts: seq<Hkl>)
    requires MaxScore(maps, s, layouts) > 0 && PreferredIsBest(maps, s, preferred, layouts)
    ensures Pick(maps, s, preferred, layouts).0 == preferred
    decreases |layouts|
  {
    var q := layouts[..|layouts| - 1];
    var l := layouts[|layouts| - 1];
    assert layouts == q + [l];
    PickScore(maps, s, preferred, q);
    var m := MaxScore(maps, s, q);
    if m > 0 && PreferredIsBest(maps, s, preferred, q) {
      PickPreferred(maps, s, preferred, q);
    } else {
      assert preferred == l;
    }
  }

  /** Otherwise, with a best score above 0, the loop ends on the last layout
      that earns the best score. */
  lemma {:induction false} PickLast(maps: (Unit, Hkl) -> bool, s: seq<Unit>, preferred: Hkl, layouts: seq<Hkl>)
    requires MaxScore(maps, s, layouts) > 0 && !PreferredIsBest(maps, s, preferred, layouts)
    ensures var j := LastWithScore(maps, s, layouts, MaxScore(maps, s, layouts));
      0 <= j && Pick(maps, s, preferred, layouts).0 == layouts[j]
    decreases |layouts|
  {
    var q := layouts[..|layouts| - 1];
    var l := layouts[|layouts| - 1];
    assert layouts == q + [l];
    PickScore(maps, s, preferred, q);
    var m := MaxScore(maps, s, q);
    var sc := Score(maps, s, l);
    if m > 0 && sc <= m {
      // the best of `q` keeps its place in the longer list
      var j := LastWithScore(maps, s, q, m);
      if !PreferredIsBest(maps, s, preferred, q) {
        PickLast(maps, s, preferred, q);
      } else {
        PickPreferred(maps, s, preferred, q);
      }
      if sc < m {
        assert LastWithScore(maps, s, layouts, m) == j;
      }
    }
  }

  /** `DetectStringLayout`, as the program writes it: one accumulator loop over
      the installed layouts. */
  method DetectStringLayout(maps: (Unit, Hkl) -> bool, str: seq<Unit>, preferred: Hkl, layouts: seq<Hkl>)
    returns (r: Hkl)
    ensures r == Detect(maps, str, preferred, layouts)
  {
    var bestLayout := HklNull;
    var bestScore := 0;
    var i := 0;
    while i < |layouts|
      invariant 0 <= i <= |layouts|
      invariant (bestLayout, bestScore) == Pick(maps, str, preferred, layouts[..i])
    {
      assert layouts[..i + 1][..i] == layouts[..i];
      var score := MatchStringToLayout(maps, str, layouts[i]);
      if score > bestScore || (score == bestScore && score > 0 && bestLayout != preferred) {
        bestScore := score;
        bestLayout := layouts[i];
      }
      i := i + 1;
    }
    assert layouts[..i] == layouts;
    r := if bestScore > 0 then bestLayout else HklNull;
  }

  /** The choice the detector makes: it returns a best-scoring layout, the
      preferred one whenever it is among the best, otherwise the last of the
      best; and NULL exactly when no layout can type any character of the text. */
  lemma DetectChoosesBest(maps: (Unit, Hkl) -> bool, s: seq<Unit>, preferred: Hkl, layouts: seq<Hkl>)
    requires forall j :: 0 <= j < |layouts| ==> layouts[j] != HklNull
    ensures var r := Detect(maps, s, preferred, layouts);
      r == HklNull <==> MaxScore(maps, s, layouts) == 0
    ensures var r := Detect(maps, s, preferred, layouts);
      MaxScore(maps, s, layouts) > 0 ==> r in layouts && Score(maps, s, r) == MaxScore(maps, s, layouts)
    ensures MaxScore(maps, s, layouts) > 0 && PreferredIsBest(maps, s, preferred, layouts) ==>
      Detect(maps, s, preferred, layouts) == preferred
    ensures MaxScore(maps, s, layouts) > 0 && !PreferredIsBest(maps, s, preferred, layouts) ==>
      var j := LastWithScore(maps, s, layouts, MaxScore(maps, s, layouts));
      0 <= j && Detect(maps, s, preferred, layouts) == layouts[j]
  {
    PickScore(maps, s, preferred, layouts);
    if MaxScore(maps, s, layouts) > 0 {
      if PreferredIsBest(maps, s, preferred, layouts) {
        PickPreferred(maps, s, preferred, layouts);
      } else {
        PickLast(maps, s, preferred, layouts);
      }
    }
  }

  /** An empty text or an empty layout list is never detected. */
  lemma DetectNothing(maps: (Unit, Hkl) -> bool, s: seq<Unit>, preferred: Hkl, layouts: seq<Hkl>)
    requires s == [] || layouts == []
    ensures Detect(maps, s, preferred, layouts) == HklNull
  {
    PickScore(maps, s, preferred, layouts);
  }
}
