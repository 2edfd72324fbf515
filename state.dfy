/** The game state value of src/lib/solitaire.ts (lines 14-27), the win check
    (lines 199-202) and the conservation invariant every reachable state keeps:
    the identities on all piles together are exactly those of the 52-card deck. */
module GameStates {
  import opened Optional
  import opened Cards

  datatype PileType = Stock | Waste | Foundation | Tableau

  /** A `{ type, index }` pile reference; the index matters for foundations and tableaus. */
  datatype PileRef = PileRef(kind: PileType, index: int)

  datatype GameState = GameState(
    stock: seq<Card>,
    waste: seq<Card>,
    foundation: seq<seq<Card>>,
    tableau: seq<seq<Card>>,
    moves: int,
    startTime: Option<int>,
    endTime: Option<int>,
    isWon: bool)

  const FOUNDATION_COUNT: nat := 4
  const TABLEAU_COUNT: nat := 7
  const SUIT_SIZE: nat := 13

  /** `pile[pile.length - 1]`: the top card, undefined for an empty pile. */
  function TopOf(pile: seq<Card>): (top: Option<Card>)
    ensures top.None? <==> |pile| == 0
    ensures top.Some? ==> top.value == pile[|pile| - 1]
  {
    if |pile| == 0 then None else Some(pile[|pile| - 1])
  }

  /** JavaScript's `!t` on a `number | null` timestamp: true for null and for 0. */
  predicate Falsy(t: Option<int>)
  {
    t == None || t == Some(0)
  }

  predicate AllFaceDown(s: seq<Card>)
  {
    forall k :: 0 <= k < |s| ==> !s[k].faceUp
  }

  /** Four foundations and seven tableau piles, as every state the game builds has. */
  predicate Shaped(s: GameState)
  {
    |s.foundation| == FOUNDATION_COUNT && |s.tableau| == TABLEAU_COUNT
  }

  /** A reference whose index names an existing pile of its kind in `s`. */
  predicate InState(s: GameState, r: PileRef)
  {
    match r.kind
    case Foundation => 0 <= r.index < |s.foundation|
    case Tableau => 0 <= r.index < |s.tableau|
    case _ => true
  }

  /** A reference to one of the piles the board renders. */
  predicate ValidRef(r: PileRef)
  {
    match r.kind
    case Foundation => 0 <= r.index < FOUNDATION_COUNT
    case Tableau => 0 <= r.index < TABLEAU_COUNT
    case _ => true
  }

  lemma ValidRefInState(s: GameState, r: PileRef)
    requires Shaped(s) && ValidRef(r)
    ensures InState(s, r)
  {
  }

  // ----- card conservation -----

  /** The identities held by a list of piles. */
  function PilesBag(ps: seq<seq<Card>>): multiset<string>
  {
    if |ps| == 0 then multiset{} else PilesBag(ps[..|ps| - 1]) + IdBag(ps[|ps| - 1])
  }

  /** The identities on every pile of a state. */
  function AllIds(s: GameState): multiset<string>
  {
    IdBag(s.stock) + IdBag(s.waste) + PilesBag(s.foundation) + PilesBag(s.tableau)
  }

  /** No card lost, none duplicated: the piles hold exactly the deck's identities. */
  predicate Complete(s: GameState)
  {
    AllIds(s) == IdBag(CanonicalDeck())
  }

  lemma {:induction false} PilesBagConcat(a: seq<seq<Card>>, b: seq<seq<Card>>)
    ensures PilesBag(a + b) == PilesBag(a) + PilesBag(b)
    decreases |b|
  {
    if |b| == 0 {
      assert a + b == a;
    } else {
      var n := |b| - 1;
      assert (a + b)[..|a + b| - 1] == a + b[..n];
      PilesBagConcat(a, b[..n]);
    }
  }

  /** The bag of a list of piles splits around pile i. */
  lemma {:induction false} PilesBagSplit(ps: seq<seq<Card>>, i: nat)
    requires i < |ps|
    ensures PilesBag(ps) == PilesBag(ps[..i]) + IdBag(ps[i]) + PilesBag(ps[i + 1..])
    decreases |ps|
  {
    var n := |ps| - 1;
    var init := ps[..n];
    if i == n {
      assert init == ps[..i];
      assert PilesBag(ps[i + 1..]) == multiset{};
    } else {
      var tail := ps[i + 1..];
      assert init[..i] == ps[..i] && init[i] == ps[i];
      assert tail[..|tail| - 1] == init[i + 1..] && tail[|tail| - 1] == ps[n];
      calc {
        PilesBag(ps);
        PilesBag(init) + IdBag(ps[n]);
        { PilesBagSplit(init, i); }
        (PilesBag(ps[..i]) + IdBag(ps[i]) + PilesBag(init[i + 1..])) + IdBag(ps[n]);
        { UnionRegroup(PilesBag(ps[..i]), IdBag(ps[i]), PilesBag(init[i + 1..]), IdBag(ps[n])); }
        PilesBag(ps[..i]) + IdBag(ps[i]) + (PilesBag(init[i + 1..]) + IdBag(ps[n]));
        PilesBag(ps[..i]) + IdBag(ps[i]) + PilesBag(tail);
      }
    }
  }

  lemma UnionRegroup(a: multiset<string>, b: multiset<string>, c: multiset<string>, x: multiset<string>)
    ensures (a + b + c) + x == a + b + (c + x)
  {
  }

  /** Replacing pile i changes the bag by exactly what leaves and what arrives. */
  lemma PilesBagUpdate(ps: seq<seq<Card>>, i: nat, p: seq<Card>)
    requires i < |ps|
    ensures PilesBag(ps[i := p]) + IdBag(ps[i]) == PilesBag(ps) + IdBag(p)
  {
    var q := ps[i := p];
    PilesBagSplit(ps, i);
    PilesBagSplit(q, i);
    assert q[..i] == ps[..i] && q[i + 1..] == ps[i + 1..];
  }

  /** Pushing one card onto pile i adds exactly that card's identity. */
  lemma PilesBagPush(ps: seq<seq<Card>>, i: nat, c: Card)
    requires i < |ps|
    ensures PilesBag(ps[i := ps[i] + [c]]) == PilesBag(ps) + multiset{c.id}
  {
    var q := ps[i := ps[i] + [c]];
    PilesBagSplit(ps, i);
    PilesBagSplit(q, i);
    assert q[..i] == ps[..i] && q[i + 1..] == ps[i + 1..];
    IdBagPush(ps[i], c);
  }

  /** Replacing pile i by a pile that gained and lost some identities changes the list's bag
      by exactly those. */
  lemma PilesBagExchange(ps: seq<seq<Card>>, i: nat, p: seq<Card>, gained: multiset<string>, lost: multiset<string>)
    requires i < |ps|
    requires IdBag(p) + lost == IdBag(ps[i]) + gained
    ensures PilesBag(ps[i := p]) + lost == PilesBag(ps) + gained
  {
    var q := ps[i := p];
    PilesBagSplit(ps, i);
    PilesBagSplit(q, i);
    assert q[..i] == ps[..i] && q[i + 1..] == ps[i + 1..];
    forall x ensures (PilesBag(q) + lost)[x] == (PilesBag(ps) + gained)[x] {
      assert (IdBag(p) + lost)[x] == (IdBag(ps[i]) + gained)[x];
    }
  }

  /** Every pile's identities are part of the list's bag. */
  lemma PilesBagHas(ps: seq<seq<Card>>, i: nat)
    requires i < |ps|
    ensures IdBag(ps[i]) <= PilesBag(ps)
  {
    PilesBagSplit(ps, i);
  }

  /** Replacing the waste changes the state's identities by what the waste gained and lost. */
  lemma AllIdsWithWaste(s: GameState, w: seq<Card>, gained: multiset<string>, lost: multiset<string>)
    requires IdBag(w) + lost == IdBag(s.waste) + gained
    ensures AllIds(s.(waste := w)) + lost == AllIds(s) + gained
  {
    var r := s.(waste := w);
    forall x ensures (AllIds(r) + lost)[x] == (AllIds(s) + gained)[x] {
      assert (IdBag(w) + lost)[x] == (IdBag(s.waste) + gained)[x];
    }
  }

  /** Replacing the foundations changes the state's identities by what they gained and lost. */
  lemma AllIdsWithFoundation(s: GameState, f: seq<seq<Card>>, gained: multiset<string>, lost: multiset<string>)
    requires PilesBag(f) + lost == PilesBag(s.foundation) + gained
    ensures AllIds(s.(foundation := f)) + lost == AllIds(s) + gained
  {
    var r := s.(foundation := f);
    forall x ensures (AllIds(r) + lost)[x] == (AllIds(s) + gained)[x] {
      assert (PilesBag(f) + lost)[x] == (PilesBag(s.foundation) + gained)[x];
    }
  }

  /** Replacing the tableau changes the state's identities by what it gained and lost. */
  lemma AllIdsWithTableau(s: GameState, t: seq<seq<Card>>, gained: multiset<string>, lost: multiset<string>)
    requires PilesBag(t) + lost == PilesBag(s.tableau) + gained
    ensures AllIds(s.(tableau := t)) + lost == AllIds(s) + gained
  {
    var r := s.(tableau := t);
    forall x ensures (AllIds(r) + lost)[x] == (AllIds(s) + gained)[x] {
      assert (PilesBag(t) + lost)[x] == (PilesBag(s.tableau) + gained)[x];
    }
  }

  /** The bag of a list of piles has as many elements as the piles have cards. */
  function CardCount(ps: seq<seq<Card>>): nat
  {
    if |ps| == 0 then 0 else CardCount(ps[..|ps| - 1]) + |ps[|ps| - 1]|
  }

  lemma {:induction false} PilesBagSize(ps: seq<seq<Card>>)
    ensures |PilesBag(ps)| == CardCount(ps)
    decreases |ps|
  {
    if |ps| > 0 {
      PilesBagSize(ps[..|ps| - 1]);
      assert |IdBag(ps[|ps| - 1])| == |ps[|ps| - 1]|;
    }
  }

  lemma {:induction false} CardCountConcat(a: seq<seq<Card>>, b: seq<seq<Card>>)
    ensures CardCount(a + b) == CardCount(a) + CardCount(b)
    decreases |b|
  {
    if |b| == 0 {
      assert a + b == a;
    } else {
      var n := |b| - 1;
      assert (a + b)[..|a + b| - 1] == a + b[..n];
      CardCountConcat(a, b[..n]);
    }
  }

  /** Replacing pile i changes the card count by the difference in that pile's length. */
  lemma CardCountUpdate(ps: seq<seq<Card>>, i: nat, p: seq<Card>)
    requires i < |ps|
    ensures CardCount(ps[i := p]) + |ps[i]| == CardCount(ps) + |p|
  {
    var q := ps[i := p];
    assert ps == ps[..i] + [ps[i]] + ps[i + 1..];
    assert q == ps[..i] + [p] + ps[i + 1..];
    CardCountConcat(ps[..i] + [ps[i]], ps[i + 1..]);
    CardCountConcat(ps[..i], [ps[i]]);
    CardCountConcat(ps[..i] + [p], ps[i + 1..]);
    CardCountConcat(ps[..i], [p]);
    assert [p][..0] == [] && [ps[i]][..0] == [];
  }

  /** Taking c out of a and putting it back gives a again. */
  lemma BagsBalance(a: multiset<string>, b: multiset<string>, c: multiset<string>, d: multiset<string>)
    requires b + c == a + multiset{}
    requires d + multiset{} == b + c
    ensures d == a
  {
    forall x ensures d[x] == a[x] {
      assert (b + c)[x] == (a + multiset{})[x];
      assert (d + multiset{})[x] == (b + c)[x];
    }
  }

  /** In a complete state every pile holds each identity at most once. */
  lemma CompletePileDistinct(s: GameState, p: seq<Card>)
    requires Complete(s)
    requires p == s.stock || p == s.waste || p in s.foundation || p in s.tableau
    ensures forall x :: IdBag(p)[x] <= 1
  {
    DeckBagAtMostOnce();
    if p in s.foundation {
      var i :| 0 <= i < |s.foundation| && s.foundation[i] == p;
      PilesBagHas(s.foundation, i);
    } else if p in s.tableau {
      var i :| 0 <= i < |s.tableau| && s.tableau[i] == p;
      PilesBagHas(s.tableau, i);
    }
    assert IdBag(p) <= AllIds(s);
  }

  // ----- the win condition -----

  /** `foundation.every(pile => pile.length === 13)`. */
  predicate CheckWinCondition(s: GameState)
  {
    forall j :: 0 <= j < |s.foundation| ==> |s.foundation[j]| == SUIT_SIZE
  }

  /** In a complete four-foundation state, a win means every card is on a foundation. */
  lemma WinEmptiesOtherPiles(s: GameState)
    requires Complete(s) && Shaped(s) && CheckWinCondition(s)
    ensures s.stock == [] && s.waste == [] && CardCount(s.tableau) == 0
  {
    var f := s.foundation;
    assert f[..3][..2] == f[..2] && f[..2][..1] == f[..1] && f[..1][..0] == [];
    assert CardCount(f) == CardCount(f[..3]) + |f[3]|;
    assert CardCount(f[..3]) == CardCount(f[..2]) + |f[2]|;
    assert CardCount(f[..2]) == CardCount(f[..1]) + |f[1]|;
    assert CardCount(f[..1]) == |f[0]|;
    assert CardCount(f) == 52;
    PilesBagSize(f);
    PilesBagSize(s.tableau);
    assert |Ids(CanonicalDeck())| == 52;
    assert |IdBag(CanonicalDeck())| == 52;
    assert |AllIds(s)| == |s.stock| + |s.waste| + 52 + CardCount(s.tableau);
  }

  /** The win bookkeeping after a move and after auto-finish: `isWon` is recomputed, and
      `endTime` is stamped with `now` only when the game is won and it was not yet set. */
  function StampWin(s: GameState, now: int): (r: GameState)
    ensures r.isWon == CheckWinCondition(s)
    ensures r == s.(isWon := r.isWon, endTime := r.endTime)
    ensures !Falsy(s.endTime) ==> r.endTime == s.endTime
    ensures r.endTime != s.endTime ==> r.isWon && r.endTime == Some(now)
    ensures CheckWinCondition(s) && Falsy(s.endTime) ==> r.endTime == Some(now)
  {
    var won := CheckWinCondition(s);
    s.(isWon := won, endTime := if won && Falsy(s.endTime) then Some(now) else s.endTime)
  }

  lemma StampWinKeepsIds(s: GameState, now: int)
    ensures AllIds(StampWin(s, now)) == AllIds(s)
  {
    var r := StampWin(s, now);
    assert r.stock == s.stock && r.waste == s.waste && r.foundation == s.foundation && r.tableau == s.tableau;
  }
}
