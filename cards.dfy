/** Cards and the canonical 52-card deck (src/lib/solitaire.ts, lines 1-57).

    A card carries the same fields as the TypeScript record: an identity string
    `suit-value`, its suit and face value, its orientation, and the colour and
    rank order derived from suit and value when the deck is built. */
module Cards {
  import opened Optional

  datatype Suit = Heart | Diamond | Club | Spade
  datatype Value = Ace | Two | Three | Four | Five | Six | Seven | Eight | Nine | Ten | Jack | Queen | King
  datatype Color = Red | Black

  datatype Card = Card(id: string, suit: Suit, value: Value, faceUp: bool, color: Color, order: int)

  /** Suits in deck order. */
  const SUITS: seq<Suit> := [Heart, Diamond, Club, Spade]

  /** Face values in deck order, Ace low. */
  const VALUES: seq<Value> := [Ace, Two, Three, Four, Five, Six, Seven, Eight, Nine, Ten, Jack, Queen, King]

  const DECK_SIZE: nat := 52

  /** Rank order of a face value: its 1-based position in VALUES (A = 1 ... K = 13). */
  function ValueOrder(v: Value): (n: int)
    ensures 1 <= n <= 13 && VALUES[n - 1] == v
  {
    match v
    case Ace => 1    case Two => 2    case Three => 3  case Four => 4
    case Five => 5   case Six => 6    case Seven => 7  case Eight => 8
    case Nine => 9   case Ten => 10   case Jack => 11  case Queen => 12
    case King => 13
  }

  /** Hearts and diamonds are red, clubs and spades black. */
  function SuitColor(s: Suit): Color
  {
    if s == Heart || s == Diamond then Red else Black
  }

  function SuitName(s: Suit): string
  {
    match s
    case Heart => "heart"
    case Diamond => "diamond"
    case Club => "club"
    case Spade => "spade"
  }

  function ValueName(v: Value): string
  {
    match v
    case Ace => "A"   case Two => "2"    case Three => "3"  case Four => "4"
    case Five => "5"  case Six => "6"    case Seven => "7"  case Eight => "8"
    case Nine => "9"  case Ten => "10"   case Jack => "J"   case Queen => "Q"
    case King => "K"
  }

  /** The identity string `${suit}-${value}` given to every card of the deck. */
  function CardId(s: Suit, v: Value): string
  {
    SuitName(s) + "-" + ValueName(v)
  }

  function ParseSuit(name: string): Option<Suit>
  {
    if name == "heart" then Some(Heart)
    else if name == "diamond" then Some(Diamond)
    else if name == "club" then Some(Club)
    else if name == "spade" then Some(Spade)
    else None
  }

  function ParseValue(name: string): Option<Value>
  {
    if name == "A" then Some(Ace) else if name == "2" then Some(Two)
    else if name == "3" then Some(Three) else if name == "4" then Some(Four)
    else if name == "5" then Some(Five) else if name == "6" then Some(Six)
    else if name == "7" then Some(Seven) else if name == "8" then Some(Eight)
    else if name == "9" then Some(Nine) else if name == "10" then Some(Ten)
    else if name == "J" then Some(Jack) else if name == "Q" then Some(Queen)
    else if name == "K" then Some(King)
    else None
  }

  /** Index of the first '-' in `s`, or |s| when there is none. */
  function DashIndex(s: string): (k: nat)
    ensures k <= |s|
    ensures k < |s| ==> s[k] == '-'
    ensures forall m :: 0 <= m < k ==> s[m] != '-'
  {
    if |s| == 0 then 0
    else if s[0] == '-' then 0
    else 1 + DashIndex(s[1..])
  }

  /** Reads an identity string back into its suit and value. */
  function ParseCardId(id: string): Option<(Suit, Value)>
  {
    var k := DashIndex(id);
    if k == |id| then None
    else
      match (ParseSuit(id[..k]), ParseValue(id[k + 1..]))
      case (Some(s), Some(v)) => Some((s, v))
      case _ => None
  }

  lemma SuitNameHasNoDash(s: Suit)
    ensures forall m :: 0 <= m < |SuitName(s)| ==> SuitName(s)[m] != '-'
  {
  }

  lemma ParseSuitName(s: Suit)
    ensures ParseSuit(SuitName(s)) == Some(s)
  {
  }

  lemma ParseValueName(v: Value)
    ensures ParseValue(ValueName(v)) == Some(v)
  {
  }

  /** In `a + "-" + b` with no dash in `a`, the first dash sits right after `a`. */
  lemma {:induction false} DashAfterPrefix(a: string, b: string)
    requires forall m :: 0 <= m < |a| ==> a[m] != '-'
    ensures DashIndex(a + "-" + b) == |a|
  {
    if |a| > 0 {
      assert (a + "-" + b)[1..] == a[1..] + "-" + b;
      DashAfterPrefix(a[1..], b);
    }
  }

  /** Parsing an identity string gives back the suit and value it was built from. */
  lemma ParseCardIdRoundTrip(s: Suit, v: Value)
    ensures ParseCardId(CardId(s, v)) == Some((s, v))
  {
    var id := CardId(s, v);
    var n := |SuitName(s)|;
    SuitNameHasNoDash(s);
    DashAfterPrefix(SuitName(s), ValueName(v));
    assert id[..n] == SuitName(s);
    assert id[n + 1..] == ValueName(v);
    ParseSuitName(s);
    ParseValueName(v);
  }

  /** Distinct (suit, value) pairs get distinct identity strings. */
  lemma CardIdInjective(s1: Suit, v1: Value, s2: Suit, v2: Value)
    requires CardId(s1, v1) == CardId(s2, v2)
    ensures s1 == s2 && v1 == v2
  {
    ParseCardIdRoundTrip(s1, v1);
    ParseCardIdRoundTrip(s2, v2);
  }

  /** The card `createDeck` builds for a suit and value: face down, colour and order derived. */
  function MakeCard(s: Suit, v: Value): Card
  {
    Card(CardId(s, v), s, v, false, SuitColor(s), ValueOrder(v))
  }

  /** A card whose id, colour and order agree with its suit and value, as `createDeck` makes them. */
  predicate WellFormed(c: Card)
  {
    && c.id == CardId(c.suit, c.value)
    && c.order == ValueOrder(c.value)
    && (c.color == Red <==> c.suit == Heart || c.suit == Diamond)
  }

  lemma MakeCardWellFormed(s: Suit, v: Value)
    ensures WellFormed(MakeCard(s, v)) && !MakeCard(s, v).faceUp
    ensures 1 <= MakeCard(s, v).order <= 13
  {
  }

  /** The k-th card of the canonical deck: suit-major, then A..K. */
  function DeckCard(k: nat): Card
    requires k < DECK_SIZE
  {
    MakeCard(SUITS[k / 13], VALUES[k % 13])
  }

  function CanonicalDeck(): (deck: seq<Card>)
    ensures |deck| == DECK_SIZE
  {
    seq(DECK_SIZE, k requires 0 <= k < DECK_SIZE => DeckCard(k))
  }

  /** The card at position 13 * si + vi of the deck is the si-th suit's vi-th value. */
  lemma DeckCardAt(si: nat, vi: nat)
    requires si < 4 && vi < 13
    ensures DeckCard(13 * si + vi) == MakeCard(SUITS[si], VALUES[vi])
  {
    DeckIndexSplit(si, vi);
  }

  /** The first |s| cards of the canonical deck, in order. */
  predicate DeckPrefix(s: seq<Card>)
  {
    |s| <= DECK_SIZE && s == CanonicalDeck()[..|s|]
  }

  /** Pushing the next card of the canonical deck extends a prefix of it. */
  lemma DeckPrefixPush(s: seq<Card>, si: nat, vi: nat)
    requires si < 4 && vi < 13 && |s| == 13 * si + vi
    requires DeckPrefix(s)
    ensures DeckPrefix(s + [MakeCard(SUITS[si], VALUES[vi])])
  {
    DeckCardAt(si, vi);
    assert CanonicalDeck()[|s|] == MakeCard(SUITS[si], VALUES[vi]);
    PrefixGrows(CanonicalDeck(), s);
  }

  /** Appending the next element of a sequence to a prefix of it gives the next prefix. */
  lemma PrefixGrows<T>(full: seq<T>, s: seq<T>)
    requires |s| < |full| && s == full[..|s|]
    ensures s + [full[|s|]] == full[..|s| + 1]
  {
  }

  /** The inner loop of `createDeck`: pushes the thirteen cards of suit si in value order. */
  method PushSuit(deck: seq<Card>, si: nat) returns (r: seq<Card>)
    requires si < |SUITS| && |deck| == 13 * si
    requires DeckPrefix(deck)
    ensures |r| == 13 * si + 13
    ensures DeckPrefix(r)
  {
    r := deck;
    var vi := 0;
    while vi < |VALUES|
      invariant 0 <= vi <= |VALUES|
      invariant |r| == 13 * si + vi
      invariant DeckPrefix(r)
    {
      DeckPrefixPush(r, si, vi);
      r := r + [MakeCard(SUITS[si], VALUES[vi])];
      vi := vi + 1;
    }
  }

  /** Builds the deck with two nested loops pushing onto an initially empty sequence. */
  method CreateDeck() returns (deck: seq<Card>)
    ensures deck == CanonicalDeck()
    ensures forall k :: 0 <= k < DECK_SIZE ==> deck[k] == DeckCard(k)
    ensures forall k :: 0 <= k < DECK_SIZE ==> WellFormed(deck[k]) && !deck[k].faceUp
  {
    deck := [];
    var si := 0;
    while si < |SUITS|
      invariant 0 <= si <= |SUITS|
      invariant |deck| == 13 * si
      invariant DeckPrefix(deck)
    {
      deck := PushSuit(deck, si);
      si := si + 1;
    }
    forall k | 0 <= k < DECK_SIZE
      ensures WellFormed(deck[k]) && !deck[k].faceUp
    {
      MakeCardWellFormed(SUITS[k / 13], VALUES[k % 13]);
    }
    assert deck == CanonicalDeck();
  }

  /** Every (suit, value) pair occurs in the deck, at position 13 * suit + value. */
  lemma DeckHasEveryCard(s: Suit, v: Value)
    ensures exists k :: 0 <= k < DECK_SIZE && DeckCard(k).suit == s && DeckCard(k).value == v
  {
    var si := if s == Heart then 0 else if s == Diamond then 1 else if s == Club then 2 else 3;
    var k := 13 * si + ValueOrder(v) - 1;
    assert k / 13 == si && k % 13 == ValueOrder(v) - 1;
    assert DeckCard(k).suit == s && DeckCard(k).value == v;
  }

  function SuitIndex(s: Suit): (i: nat)
    ensures i < 4 && SUITS[i] == s
  {
    match s
    case Heart => 0
    case Diamond => 1
    case Club => 2
    case Spade => 3
  }

  /** Where a card of the canonical deck sits: 13 * suit index + value order - 1. */
  function DeckPosition(c: Card): (k: nat)
    ensures k < DECK_SIZE
  {
    13 * SuitIndex(c.suit) + ValueOrder(c.value) - 1
  }

  lemma DeckIndexSplit(si: nat, vi: nat)
    requires si < 4 && vi < 13
    ensures (13 * si + vi) / 13 == si && (13 * si + vi) % 13 == vi
  {
  }

  /** The k-th card of the deck sits at position k: suit and value determine the position. */
  lemma DeckCardPosition(k: nat)
    requires k < DECK_SIZE
    ensures DeckPosition(DeckCard(k)) == k
  {
    var si, vi := k / 13, k % 13;
    assert k == 13 * si + vi;
    assert SuitIndex(SUITS[si]) == si;
    assert ValueOrder(VALUES[vi]) == vi + 1;
  }

  /** Equal identity strings in the canonical deck mean equal positions. */
  lemma DeckIdDeterminesPosition(k1: nat, k2: nat)
    requires k1 < DECK_SIZE && k2 < DECK_SIZE
    requires DeckCard(k1).id == DeckCard(k2).id
    ensures k1 == k2
  {
    CardIdInjective(SUITS[k1 / 13], VALUES[k1 % 13], SUITS[k2 / 13], VALUES[k2 % 13]);
    DeckCardPosition(k1);
    DeckCardPosition(k2);
  }

  // ----- identity bags -----

  /** The identity strings of a pile, in pile order. */
  function Ids(s: seq<Card>): (ids: seq<string>)
    ensures |ids| == |s|
    ensures forall k :: 0 <= k < |s| ==> ids[k] == s[k].id
  {
    seq(|s|, k requires 0 <= k < |s| => s[k].id)
  }

  /** The multiset of identities held by a pile. */
  function IdBag(s: seq<Card>): multiset<string>
  {
    multiset(Ids(s))
  }

  lemma IdBagConcat(a: seq<Card>, b: seq<Card>)
    ensures IdBag(a + b) == IdBag(a) + IdBag(b)
  {
    assert Ids(a + b) == Ids(a) + Ids(b);
  }

  lemma IdBagPush(p: seq<Card>, c: Card)
    ensures IdBag(p + [c]) == IdBag(p) + multiset{c.id}
  {
    assert Ids(p + [c]) == Ids(p) + [c.id];
  }

  lemma IdBagSplit(s: seq<Card>, k: nat)
    requires k <= |s|
    ensures IdBag(s) == IdBag(s[..k]) + IdBag(s[k..])
  {
    assert s == s[..k] + s[k..];
    IdBagConcat(s[..k], s[k..]);
  }

  /** Changing a card's orientation, or anything but its id, keeps the pile's identities. */
  lemma IdsOfSameIds(a: seq<Card>, b: seq<Card>)
    requires |a| == |b|
    requires forall k :: 0 <= k < |a| ==> a[k].id == b[k].id
    ensures IdBag(a) == IdBag(b)
  {
    assert Ids(a) == Ids(b);
  }

  /** Rearranging cards rearranges their identities: a permutation of cards keeps the id bag. */
  lemma {:induction false} PermutationKeepsIdBag(a: seq<Card>, b: seq<Card>)
    requires multiset(a) == multiset(b)
    ensures IdBag(a) == IdBag(b)
    decreases |a|
  {
    if |a| == 0 {
      assert |b| == |multiset(b)| == 0;
    } else {
      var x := a[0];
      assert x in multiset(b);
      var k :| 0 <= k < |b| && b[k] == x;
      var a' := a[1..];
      var b' := b[..k] + b[k + 1..];
      assert a == [x] + a';
      assert b == b[..k] + [x] + b[k + 1..];
      assert multiset(a) == multiset{x} + multiset(a');
      assert multiset(b) == multiset(b[..k]) + multiset{x} + multiset(b[k + 1..]);
      assert multiset(b') == multiset(b[..k]) + multiset(b[k + 1..]);
      assert multiset(a') == multiset(a) - multiset{x};
      assert multiset(b') == multiset(b) - multiset{x};
      PermutationKeepsIdBag(a', b');
      IdBagConcat([x], a');
      IdBagConcat(b[..k], [x]);
      IdBagConcat(b[..k] + [x], b[k + 1..]);
      IdBagConcat(b[..k], b[k + 1..]);
    }
  }

  /** A pile whose identities each occur at most once has pairwise distinct ids. */
  lemma BagAtMostOnceDistinct(s: seq<Card>, i: nat, j: nat)
    requires forall x :: IdBag(s)[x] <= 1
    requires i < j < |s|
    ensures s[i].id != s[j].id
  {
    var t := Ids(s);
    assert t == t[..j] + [t[j]] + t[j + 1..];
    assert multiset(t) == multiset(t[..j]) + multiset{t[j]} + multiset(t[j + 1..]);
    assert IdBag(s) == multiset(t);
    assert multiset(t)[t[j]] <= 1;
    assert multiset(t[..j])[t[j]] == 0;
    assert t[..j][i] == t[i];
    assert t[i] in multiset(t[..j]);
  }

  /** Pairwise distinct ids make every identity occur at most once in the pile. */
  lemma {:induction false} DistinctIdsAtMostOnce(s: seq<Card>)
    requires forall i, j :: 0 <= i < j < |s| ==> s[i].id != s[j].id
    ensures forall x :: IdBag(s)[x] <= 1
  {
    if |s| > 0 {
      var n := |s| - 1;
      DistinctIdsAtMostOnce(s[..n]);
      IdBagConcat(s[..n], [s[n]]);
      assert s == s[..n] + [s[n]];
      assert s[n].id !in Ids(s[..n]);
    }
  }

  /** The canonical deck holds each of its identities exactly once. */
  lemma DeckBagAtMostOnce()
    ensures forall x :: IdBag(CanonicalDeck())[x] <= 1
  {
    var d := CanonicalDeck();
    forall i, j | 0 <= i < j < |d|
      ensures d[i].id != d[j].id
    {
      if d[i].id == d[j].id {
        DeckIdDeterminesPosition(i, j);
      }
    }
    DistinctIdsAtMostOnce(d);
  }
}
