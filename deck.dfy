/** Building the deck of a round: the first `pairs` icons of the fixed icon table, each twice. */
module DeckBuilder {
  import opened Levels

  type Icon = string

  /** The 24 card faces, in table order. The medal is the two-code-point sequence U+1F396 U+FE0F. */
  const Icons: seq<Icon> := [
    "\U{1F3AE}", "\U{1F3AF}", "\U{1F3B2}", "\U{1F3A8}", "\U{1F3AD}", "\U{1F3AA}", "\U{1F3B8}", "\U{1F3BA}",
    "\U{1F3B9}", "\U{1F3AC}", "\U{1F3A4}", "\U{1F3A7}", "\U{1F3BC}", "\U{1F3C0}", "\U{26BD}", "\U{1F3C8}",
    "\U{1F3BE}", "\U{1F3D0}", "\U{1F3B3}", "\U{1F3D3}", "\U{1F3B1}", "\U{1F3C6}", "\U{1F396}\U{FE0F}", "\U{1F3C5}"
  ]

  ghost predicate Distinct<T>(s: seq<T>)
  {
    forall i, j :: 0 <= i < j < |s| ==> s[i] != s[j]
  }

  /** No two entries of the icon table are the same string. */
  lemma IconsDistinct()
    ensures |Icons| == 24 && Distinct(Icons)
  {
  }

  /** Every preset deals at most as many pairs as there are icons, so the deck is never cut short. */
  lemma PairCountFits(d: Difficulty)
    ensures PairCount(d) <= |Icons|
  {
  }

  /** `icons.slice(0, pairs)`: slicing past the end keeps the whole table. */
  function Selected(pairs: nat): (sel: seq<Icon>)
    ensures |sel| == Min(pairs, |Icons|)
    ensures sel == Icons[..|sel|]
  {
    Icons[..Min(pairs, |Icons|)]
  }

  /** The unshuffled deck `[...selectedIcons, ...selectedIcons]`. */
  function Deck(pairs: nat): (deck: seq<Icon>)
    ensures |deck| == 2 * Min(pairs, |Icons|)
    ensures forall k :: 0 <= k < |deck| ==> deck[k] in Selected(pairs)
    ensures forall k :: 0 <= k < |Selected(pairs)| ==>
      deck[k] == deck[k + |Selected(pairs)|] == Icons[k]
  {
    var sel := Selected(pairs);
    DoubledHalves(sel);
    sel + sel
  }

  /** The two halves of `s + s` are both `s`, and every element of it is an element of `s`. */
  lemma DoubledHalves<T>(s: seq<T>)
    ensures forall k :: 0 <= k < |s| ==> (s + s)[k] == s[k] && (s + s)[k + |s|] == s[k]
    ensures forall k :: 0 <= k < 2 * |s| ==> (s + s)[k] in s
  {
  }

  /** In a sequence without repetitions every value occurs once or not at all. */
  lemma {:induction false} CountDistinct<T>(s: seq<T>, x: T)
    requires Distinct(s)
    ensures multiset(s)[x] == if x in s then 1 else 0
  {
    if s != [] {
      assert s == [s[0]] + s[1..];
      assert Distinct(s[1..]) by {
        forall i, j | 0 <= i < j < |s[1..]| ensures s[1..][i] != s[1..][j] {
          assert s[1..][i] == s[i + 1] && s[1..][j] == s[j + 1];
        }
      }
      CountDistinct(s[1..], x);
      if x == s[0] {
        assert x !in s[1..] by {
          forall k | 0 <= k < |s[1..]| ensures s[1..][k] != x {
            assert s[1..][k] == s[k + 1];
          }
        }
      }
    }
  }

  /** Each of the first `pairs` icons occurs exactly twice in the deck, and no other value occurs. */
  lemma DeckCount(pairs: nat, x: Icon)
    ensures multiset(Deck(pairs))[x] == if x in Selected(pairs) then 2 else 0
  {
    var sel := Selected(pairs);
    IconsDistinct();
    assert Distinct(sel) by {
      forall i, j | 0 <= i < j < |sel| ensures sel[i] != sel[j] {
        assert sel[i] == Icons[i] && sel[j] == Icons[j];
      }
    }
    CountDistinct(sel, x);
    assert multiset(sel + sel) == multiset(sel) + multiset(sel);
  }

  /** `order` holds the cards of the deck for `pairs` in some order: what the shuffle produces. */
  ghost predicate IsShuffle(order: seq<Icon>, pairs: nat)
  {
    multiset(order) == multiset(Deck(pairs))
  }

  /** Any order of the deck (the shuffle only permutes it) has the same length and the same counts. */
  lemma ShuffledDeck(pairs: nat, shuffled: seq<Icon>, x: Icon)
    requires IsShuffle(shuffled, pairs)
    ensures |shuffled| == 2 * Min(pairs, |Icons|)
    ensures multiset(shuffled)[x] == if x in Selected(pairs) then 2 else 0
    ensures x in shuffled <==> x in Selected(pairs)
  {
    assert |multiset(shuffled)| == |shuffled|;
    assert |multiset(Deck(pairs))| == |Deck(pairs)|;
    DeckCount(pairs, x);
  }
}
