/** The twist engine: the four in-place remappings of the colour-meaning map and the
    level band that selects each of them. */
module Twists {
  import opened Seqs
  import opened Palette

  /** The random draws a twist may consume: `first`, `second` and `third` are the
      `Math.floor(Math.random() * n)` indices taken from a shrinking list of colours,
      `order` is the outcome of sorting the palette with a random comparator. */
  datatype Draws = Draws(first: nat, second: nat, third: nat, order: seq<Color>)

  /** What `Math.random` can produce: each index below the length of the list it picks
      from (six, then five, then four colours), and a rearrangement of the palette. */
  ghost predicate ValidDraws(d: Draws) {
    && d.first < |Colors|
    && d.second < |Colors| - 1
    && d.third < |Colors| - 2
    && IsArrangement(d.order)
  }

  /** One twist, with the colours it involves (the tuple the twist notification reports). */
  datatype Twist =
    | SimpleSwap(a: Color, b: Color)
    | ChainSwap(a: Color, b: Color, c: Color)
    | Shuffle(order: seq<Color>)
    | Reverse

  /** A twist the engine can produce: swapped and rotated colours are distinct, and a
      shuffle assigns a rearrangement of the palette. */
  ghost predicate WellFormed(t: Twist) {
    match t
    case SimpleSwap(a, b) => a != b
    case ChainSwap(a, b, c) => a != b && b != c && a != c
    case Shuffle(order) => IsArrangement(order)
    case Reverse => true
  }

  /** The two colours of `simpleColorSwap`: the `i`th palette colour, then the `j`th of
      what is left once it is spliced out of a copy of the palette. */
  function PickTwo(i: nat, j: nat): (p: (Color, Color))
    requires i < |Colors| && j < |Colors| - 1
    ensures p.0 == Colors[i] && p.0 != p.1
  {
    ColorsDistinct();
    IndexOfDistinct(Colors, i);
    RemoveAtDistinct(Colors, i);
    var color1 := Colors[i];
    var rest := RemoveAt(Colors, IndexOf(Colors, color1));
    (color1, rest[j])
  }

  /** The three colours of `chainColorSwap`: as `PickTwo`, then a third from what is
      left once the second is spliced out too. */
  function PickThree(i: nat, j: nat, k: nat): (p: (Color, Color, Color))
    requires i < |Colors| && j < |Colors| - 1 && k < |Colors| - 2
    ensures p.0 == Colors[i] && p.0 != p.1 && p.1 != p.2 && p.0 != p.2
  {
    ColorsDistinct();
    IndexOfDistinct(Colors, i);
    RemoveAtDistinct(Colors, i);
    var color1 := Colors[i];
    var rest1 := RemoveAt(Colors, IndexOf(Colors, color1));
    IndexOfDistinct(rest1, j);
    RemoveAtDistinct(rest1, j);
    var color2 := rest1[j];
    var rest2 := RemoveAt(rest1, IndexOf(rest1, color2));
    (color1, color2, rest2[k])
  }

  /** No ordered pair of distinct colours is out of reach of the swap's draws. */
  lemma PickTwoReachesEveryPair(a: Color, b: Color) returns (i: nat, j: nat)
    requires a != b
    ensures i < |Colors| && j < |Colors| - 1 && PickTwo(i, j) == (a, b)
  {
    ColorsDistinct();
    ColorsComplete();
    i := IndexOf(Colors, a);
    IndexOfDistinct(Colors, i);
    var rest := RemoveAt(Colors, i);
    RemoveAtKeeps(Colors, i, b);
    j := IndexOf(rest, b);
  }

  /** `addColorTwist`: the band of the level decides the strategy, the draws decide the
      colours. */
  function ChooseTwist(level: int, d: Draws): (t: Twist)
    requires ValidDraws(d)
    ensures WellFormed(t)
    ensures t.SimpleSwap? <==> level < 15
    ensures t.ChainSwap? <==> 15 <= level < 25
    ensures t.Shuffle? <==> 25 <= level < 35
    ensures t.Reverse? <==> 35 <= level
  {
    if level < 15 then
      var p := PickTwo(d.first, d.second);
      SimpleSwap(p.0, p.1)
    else if level < 25 then
      var p := PickThree(d.first, d.second, d.third);
      ChainSwap(p.0, p.1, p.2)
    else if level < 35 then
      Shuffle(d.order)
    else
      Reverse
  }

  /** `simpleColorSwap`: the two colours exchange their meanings; nothing else moves. */
  function Swapped(m: Meanings, a: Color, b: Color): (r: Meanings)
    requires a in m && b in m
    ensures r.Keys == m.Keys
    ensures r[a] == m[b] && r[b] == m[a]
    ensures forall c :: c in m && c != a && c != b ==> r[c] == m[c]
  {
    var temp := m[a];
    var m1 := m[a := m[b]];
    m1[b := temp]
  }

  /** `chainColorSwap`: three sequential assignments through a temporary. */
  function Rotated(m: Meanings, a: Color, b: Color, c: Color): (r: Meanings)
    requires a in m && b in m && c in m
    ensures r.Keys == m.Keys
    ensures a != b && b != c && a != c ==>
      r[a] == m[b] && r[b] == m[c] && r[c] == m[a] &&
      forall x :: x in m && x != a && x != b && x != c ==> r[x] == m[x]
  {
    var temp := m[a];
    var m1 := m[a := m[b]];
    var m2 := m1[b := m1[c]];
    m2[c := temp]
  }

  /** `shuffleAllColors`: the `k`th palette colour now means the `k`th colour of `order`. */
  function Arranged(order: seq<Color>): (r: Meanings)
    requires |order| == |Colors|
    ensures Total(r)
    ensures forall k :: 0 <= k < |Colors| ==> r[Colors[k]] == order[k]
  {
    ColorsComplete();
    ColorsDistinct();
    var r := map c | c in Colors :: order[IndexOf(Colors, c)];
    assert forall k :: 0 <= k < |Colors| ==> r[Colors[k]] == order[k] by {
      forall k | 0 <= k < |Colors| ensures r[Colors[k]] == order[k] {
        IndexOfDistinct(Colors, k);
      }
    }
    r
  }

  /** `reverseColorMappings`: after a snapshot, every colour takes the meaning of its
      meaning, falling back to itself when that second lookup finds nothing. */
  function Squared(m: Meanings): (r: Meanings)
    ensures r.Keys == m.Keys
  {
    map c | c in m :: if m[c] in m then m[m[c]] else c
  }

  /** The fallback of the reverse twist is never taken: on a total map it is exactly
      the map composed with itself. */
  lemma SquaredNeverFallsBack(m: Meanings)
    requires Total(m)
    ensures Total(Squared(m))
    ensures forall c {:trigger Squared(m)[c]} :: Squared(m)[c] == m[m[c]]
  {
  }

  /** The loop of `shuffleAllColors`: palette colour by palette colour, the `k`th colour is
      made to mean the `k`th colour of `order`. */
  method ShuffleMeanings(m: Meanings, order: seq<Color>) returns (meanings: Meanings)
    requires IsArrangement(order)
    ensures meanings == Arranged(order)
  {
    ArrangementFacts(order);
    meanings := m;
    var i := 0;
    while i < |Colors|
      invariant 0 <= i <= |Colors|
      invariant AgreesUpTo(meanings, Arranged(order), i)
    {
      AgreesStep(meanings, Arranged(order), i);
      meanings := meanings[Colors[i] := order[i]];
      i := i + 1;
    }
    AgreesAll(meanings, Arranged(order));
  }

  /** The two loops of `reverseColorMappings`: a copy of the map is taken colour by colour,
      then every colour is sent to what the copy gives for the copy's value, falling back to
      the colour itself. */
  method ReverseMeanings(m: Meanings) returns (meanings: Meanings)
    requires Total(m)
    ensures meanings == Squared(m)
  {
    var reverseMap: Meanings := map[];
    var i := 0;
    while i < |Colors|
      invariant 0 <= i <= |Colors|
      invariant AgreesUpTo(reverseMap, m, i)
    {
      AgreesStep(reverseMap, m, i);
      reverseMap := reverseMap[Colors[i] := m[Colors[i]]];
      i := i + 1;
    }
    AgreesAll(reverseMap, m);
    SquaredNeverFallsBack(m);
    meanings := m;
    var j := 0;
    while j < |Colors|
      invariant 0 <= j <= |Colors|
      invariant AgreesUpTo(meanings, Squared(m), j)
    {
      AgreesStep(meanings, Squared(m), j);
      var color := Colors[j];
      var v := reverseMap[color];
      meanings := meanings[color := if v in reverseMap then reverseMap[v] else color];
      j := j + 1;
    }
    AgreesAll(meanings, Squared(m));
  }

  /** The effect of one twist on the map. */
  function ApplyTwist(m: Meanings, t: Twist): (r: Meanings)
    requires Total(m)
    requires t.Shuffle? ==> |t.order| == |Colors|
    ensures Total(r)
  {
    match t
    case SimpleSwap(a, b) => Swapped(m, a, b)
    case ChainSwap(a, b, c) => Rotated(m, a, b, c)
    case Shuffle(order) => Arranged(order)
    case Reverse => Squared(m)
  }

  lemma SwappedInjective(m: Meanings, a: Color, b: Color)
    requires Total(m) && Injective(m)
    ensures Injective(Swapped(m, a, b))
  {
  }

  lemma SwappedOnto(m: Meanings, a: Color, b: Color)
    requires Total(m) && Onto(m)
    ensures Onto(Swapped(m, a, b))
  {
    var r := Swapped(m, a, b);
    forall c: Color ensures Meant(r, c) {
      assert Meant(m, c);
      var d :| d in m && m[d] == c;
      var e := if d == a then b else if d == b then a else d;
      assert r[e] == c;
    }
  }

  lemma SwappedIsPermutation(m: Meanings, a: Color, b: Color)
    requires IsPermutation(m)
    ensures IsPermutation(Swapped(m, a, b))
  {
    SwappedInjective(m, a, b);
    SwappedOnto(m, a, b);
  }

  lemma RotatedInjective(m: Meanings, a: Color, b: Color, c: Color)
    requires Total(m) && Injective(m)
    requires a != b && b != c && a != c
    ensures Injective(Rotated(m, a, b, c))
  {
  }

  /** The colour that takes over the meaning `d` had before the rotation. */
  lemma RotatedAt(m: Meanings, a: Color, b: Color, c: Color, d: Color) returns (e: Color)
    requires Total(m) && a != b && b != c && a != c
    ensures Rotated(m, a, b, c)[e] == m[d]
  {
    e := if d == b then a else if d == c then b else if d == a then c else d;
  }

  lemma RotatedOnto(m: Meanings, a: Color, b: Color, c: Color)
    requires Total(m) && Onto(m)
    requires a != b && b != c && a != c
    ensures Onto(Rotated(m, a, b, c))
  {
    var r := Rotated(m, a, b, c);
    forall x: Color ensures Meant(r, x) {
      assert Meant(m, x);
      var d :| d in m && m[d] == x;
      var e := RotatedAt(m, a, b, c, d);
      assert e in r;
    }
  }

  lemma RotatedIsPermutation(m: Meanings, a: Color, b: Color, c: Color)
    requires IsPermutation(m)
    requires a != b && b != c && a != c
    ensures IsPermutation(Rotated(m, a, b, c))
  {
    RotatedInjective(m, a, b, c);
    RotatedOnto(m, a, b, c);
  }

  lemma ArrangedInjectiveAt(order: seq<Color>, a: Color, b: Color)
    requires |order| == |Colors| && Distinct(order)
    requires Arranged(order)[a] == Arranged(order)[b]
    ensures a == b
  {
    ColorsComplete();
    var i, j := IndexOf(Colors, a), IndexOf(Colors, b);
    assert Arranged(order)[a] == order[i] && Arranged(order)[b] == order[j];
  }

  lemma ArrangedInjective(order: seq<Color>)
    requires IsArrangement(order)
    ensures Injective(Arranged(order))
  {
    ArrangementFacts(order);
    forall a, b | Arranged(order)[a] == Arranged(order)[b] ensures a == b {
      ArrangedInjectiveAt(order, a, b);
    }
  }

  lemma ArrangedOnto(order: seq<Color>)
    requires IsArrangement(order)
    ensures Onto(Arranged(order))
  {
    ArrangementFacts(order);
    var r := Arranged(order);
    forall c: Color ensures Meant(r, c) {
      var k := IndexOf(order, c);
      assert r[Colors[k]] == c;
    }
  }

  lemma ArrangedIsPermutation(order: seq<Color>)
    requires IsArrangement(order)
    ensures IsPermutation(Arranged(order))
  {
    ArrangedInjective(order);
    ArrangedOnto(order);
  }

  lemma SquaredInjective(m: Meanings)
    requires Total(m) && Injective(m)
    ensures Injective(Squared(m))
  {
    SquaredNeverFallsBack(m);
  }

  lemma SquaredOnto(m: Meanings)
    requires Total(m) && Onto(m)
    ensures Onto(Squared(m))
  {
    var r := Squared(m);
    SquaredNeverFallsBack(m);
    forall c: Color ensures Meant(r, c) {
      assert Meant(m, c);
      var d :| d in m && m[d] == c;
      assert Meant(m, d);
      var e :| e in m && m[e] == d;
      assert r[e] == c;
    }
  }

  lemma SquaredIsPermutation(m: Meanings)
    requires IsPermutation(m)
    ensures IsPermutation(Squared(m))
  {
    SquaredNeverFallsBack(m);
    SquaredInjective(m);
    SquaredOnto(m);
  }

  /** Every twist the engine can produce keeps the map a permutation of the palette. */
  lemma TwistKeepsPermutation(m: Meanings, t: Twist)
    requires IsPermutation(m) && WellFormed(t)
    ensures t.Shuffle? ==> |t.order| == |Colors|
    ensures IsPermutation(ApplyTwist(m, t))
  {
    match t
    case SimpleSwap(a, b) => SwappedIsPermutation(m, a, b);
    case ChainSwap(a, b, c) => RotatedIsPermutation(m, a, b, c);
    case Shuffle(order) => ArrangementFacts(order); ArrangedIsPermutation(order);
    case Reverse => SquaredIsPermutation(m);
  }

  lemma SwapOfIdentityIsInvolution(a: Color, b: Color, c: Color)
    ensures var s := Swapped(Identity(), a, b); s[s[c]] == c
  {
    var s := Swapped(Identity(), a, b);
    if c == a {
      assert s[a] == b;
    } else if c == b {
      assert s[b] == a;
    } else {
      assert s[c] == c;
    }
  }

  /** Squaring a map that undoes itself gives the identity. */
  lemma SquaredInvolution(s: Meanings)
    requires Total(s)
    requires forall c :: s[s[c]] == c
    ensures Squared(s) == Identity()
  {
    SquaredNeverFallsBack(s);
    assert Squared(s).Keys == Identity().Keys;
  }

  /** The "reverse" twist squares the map rather than inverting it: applied to a single
      exchange of two colours it restores the identity, while the inverse of an exchange
      is that same exchange. */
  lemma ReverseOfSwapIsIdentity(a: Color, b: Color)
    requires a != b
    ensures Squared(Swapped(Identity(), a, b)) == Identity()
    ensures Swapped(Identity(), a, b)[a] == b
  {
    var s := Swapped(Identity(), a, b);
    forall c ensures s[s[c]] == c {
      SwapOfIdentityIsInvolution(a, b, c);
    }
    SquaredInvolution(s);
  }
}
