/** The fixed six-colour palette and the colour-meaning map that relabels it. */
module Palette {
  import opened Seqs

  /** The six button colours, in the order the game lists them. */
  datatype Color = Red | Blue | Green | Yellow | Purple | Orange

  /** The palette in its listed order (the game's `colors` array). */
  const Colors: seq<Color> := [Red, Blue, Green, Yellow, Purple, Orange]

  lemma ColorsDistinct()
    ensures |Colors| == 6 && Distinct(Colors)
  {
  }

  /** Every colour value is a palette entry. */
  lemma ColorsComplete()
    ensures forall c: Color :: c in Colors
  {
    forall c: Color ensures c in Colors {
      match c
      case Red => assert Colors[0] == c;
      case Blue => assert Colors[1] == c;
      case Green => assert Colors[2] == c;
      case Yellow => assert Colors[3] == c;
      case Purple => assert Colors[4] == c;
      case Orange => assert Colors[5] == c;
    }
  }

  /** A colour-meaning map: visual colour (the button) to logical colour (what it counts as). */
  type Meanings = map<Color, Color>

  /** Every visual colour has a meaning. */
  ghost predicate Total(m: Meanings) {
    forall c: Color :: c in m
  }

  /** No two visual colours share a meaning. */
  ghost predicate Injective(m: Meanings) {
    forall a, b :: a in m && b in m && m[a] == m[b] ==> a == b
  }

  /** Some visual colour means `c`. */
  ghost predicate Meant(m: Meanings, c: Color) {
    exists v :: v in m && m[v] == c
  }

  /** Every logical colour is the meaning of some visual colour. */
  ghost predicate Onto(m: Meanings) {
    forall c: Color :: Meant(m, c)
  }

  /** The map is a bijection of the palette: total, one-to-one and onto. */
  ghost predicate IsPermutation(m: Meanings) {
    Total(m) && Injective(m) && Onto(m)
  }

  /** The map that `resetColorMeanings` installs: every colour means itself. */
  function Identity(): (m: Meanings)
    ensures IsPermutation(m)
    ensures forall c :: c in m && m[c] == c
  {
    ColorsComplete();
    var m := map c | c in Colors :: c;
    assert Onto(m) by {
      forall c: Color ensures Meant(m, c) { assert m[c] == c; }
    }
    m
  }

  /** `m` already gives the first `i` palette colours the meaning `f` gives them: the state
      of a loop that writes `f` into a map colour by colour. */
  ghost predicate AgreesUpTo(m: Meanings, f: Meanings, i: int) {
    forall k :: 0 <= k < i && k < |Colors| ==> Colors[k] in m && Colors[k] in f && m[Colors[k]] == f[Colors[k]]
  }

  /** Writing the next colour's meaning extends the agreement by one. */
  lemma AgreesStep(m: Meanings, f: Meanings, i: nat)
    requires i < |Colors| && Total(f) && AgreesUpTo(m, f, i)
    ensures AgreesUpTo(m[Colors[i] := f[Colors[i]]], f, i + 1)
  {
    ColorsDistinct();
  }

  /** Agreement on the whole palette is equality with a total map. */
  lemma AgreesAll(m: Meanings, f: Meanings)
    requires Total(f) && AgreesUpTo(m, f, |Colors|)
    ensures m == f
  {
    ColorsComplete();
    forall c: Color ensures c in m && m[c] == f[c] {
      assert c in Colors;
      var k :| 0 <= k < |Colors| && Colors[k] == c;
    }
  }

  /** A rearrangement of the palette, as produced by sorting `colors` with a random comparator. */
  ghost predicate IsArrangement(s: seq<Color>) {
    multiset(s) == multiset(Colors)
  }

  /** A rearrangement lists every colour exactly once. */
  lemma ArrangementFacts(s: seq<Color>)
    requires IsArrangement(s)
    ensures |s| == |Colors| && Distinct(s)
    ensures forall c: Color :: c in s
  {
    assert |multiset(s)| == |multiset(Colors)|;
    ColorsDistinct();
    SameMultisetDistinct(s, Colors);
    ColorsComplete();
    forall c: Color ensures c in s {
      assert c in Colors;
      assert c in multiset(Colors);
      assert c in multiset(s);
    }
  }

  /** Under a permutation every logical colour has exactly one button that means it:
      the player can always answer, and in only one way. */
  lemma UniqueAnswer(m: Meanings, target: Color)
    requires IsPermutation(m)
    ensures exists v :: v in m && m[v] == target
    ensures forall v, w :: v in m && w in m && m[v] == target && m[w] == target ==> v == w
  {
    assert Meant(m, target);
  }
}
