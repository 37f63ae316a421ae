/** `selectCardsWithBalance` (src/game.js:138-180): a deck drawn from the pool.
    Each minority category first gets a quota of a tenth of the target, rounded
    up, and at least one card, or every card it has when it has fewer. The deck
    has `targetCount` cards when 3 <= targetCount <= pool size (`DeckSizeExact`),
    and more when the target is below 3 (`DeckOvershoot`). */
module Selection {
  import opened Runtime
  import opened Categorizer
  import opened Shuffle

  // ---------------------------------------------------------------------------
  // Counting cards by category. The lemmas take the classifier as a parameter
  // `tag`: they hold whatever it is, and the selection uses `CardCategory`.

  /** How many cards of `s` fall in category `c`. */
  function CountOf(s: seq<Card>, tag: Card -> Category, c: Category): nat
  {
    if s == [] then 0
    else CountOf(s[..|s| - 1], tag, c) + (if tag(s[|s| - 1]) == c then 1 else 0)
  }

  /** Every card of `s` falls in category `c`. */
  predicate AllOf(s: seq<Card>, tag: Card -> Category, c: Category)
  {
    forall k :: 0 <= k < |s| ==> tag(s[k]) == c
  }

  /** Counting is additive over concatenation. */
  lemma {:induction false} CountOfAppend(a: seq<Card>, b: seq<Card>, tag: Card -> Category, c: Category)
    ensures CountOf(a + b, tag, c) == CountOf(a, tag, c) + CountOf(b, tag, c)
    decreases |b|
  {
    if b != [] {
      assert (a + b)[..|a + b| - 1] == a + b[..|b| - 1];
      CountOfAppend(a, b[..|b| - 1], tag, c);
    } else {
      assert a + b == a;
    }
  }

  /** A sequence whose cards all fall in `c` counts all of them for `c` and none
      for any other category. */
  lemma {:induction false} CountOfAllOf(s: seq<Card>, tag: Card -> Category, c: Category, d: Category)
    requires AllOf(s, tag, c)
    ensures CountOf(s, tag, d) == if d == c then |s| else 0
  {
    if s != [] {
      CountOfAllOf(s[..|s| - 1], tag, c, d);
    }
  }

  /** Reordering does not change the count of any category. */
  lemma {:induction false} CountOfPermutation(a: seq<Card>, b: seq<Card>, tag: Card -> Category, c: Category)
    requires multiset(a) == multiset(b)
    ensures CountOf(a, tag, c) == CountOf(b, tag, c)
    decreases |a|
  {
    if a != [] {
      var x := a[|a| - 1];
      var a' := a[..|a| - 1];
      assert a == a' + [x];
      assert x in multiset(b);
      var k :| 0 <= k < |b| && b[k] == x;
      var b' := b[..k] + b[k + 1..];
      assert b == b[..k] + [x] + b[k + 1..];
      assert multiset(b') == multiset(b) - multiset{x} by {
        assert multiset(b) == multiset(b') + multiset{x};
      }
      assert multiset(a') == multiset(a) - multiset{x} by {
        assert multiset(a) == multiset(a') + multiset{x};
      }
      CountOfPermutation(a', b', tag, c);
      CountOfRemove(b, k, tag, c);
      CountOfAppend(a', [x], tag, c);
      CountOfSingle(x, tag, c);
    } else {
      assert b == [];
    }
  }

  /** Taking out the card at `k` lowers the count of its category by one. */
  lemma CountOfRemove(b: seq<Card>, k: nat, tag: Card -> Category, c: Category)
    requires k < |b|
    ensures CountOf(b, tag, c) == CountOf(b[..k] + b[k + 1..], tag, c) + (if tag(b[k]) == c then 1 else 0)
  {
    assert b == b[..k] + [b[k]] + b[k + 1..];
    CountOfAppend(b[..k] + [b[k]], b[k + 1..], tag, c);
    CountOfAppend(b[..k], [b[k]], tag, c);
    CountOfAppend(b[..k], b[k + 1..], tag, c);
    CountOfSingle(b[k], tag, c);
  }

  lemma CountOfSingle(x: Card, tag: Card -> Category, c: Category)
    ensures CountOf([x], tag, c) == if tag(x) == c then 1 else 0
  {
    assert [x][..0] == [];
  }

  /** The cards of a sub-multiset of a one-category sequence are of that category. */
  lemma AllOfSubMultiset(a: seq<Card>, b: seq<Card>, tag: Card -> Category, c: Category)
    requires multiset(a) <= multiset(b) && AllOf(b, tag, c)
    ensures AllOf(a, tag, c)
  {
    forall k | 0 <= k < |a| ensures tag(a[k]) == c {
      assert a[k] in multiset(b);
    }
  }

  /** The cards of a sequence split into the four categories. */
  lemma {:induction false} CountOfTotal(s: seq<Card>, tag: Card -> Category)
    ensures |s| == CountOf(s, tag, TimeBased) + CountOf(s, tag, Duel1v1)
                   + CountOf(s, tag, GroupDuel) + CountOf(s, tag, Single)
  {
    if s != [] {
      CountOfTotal(s[..|s| - 1], tag);
    }
  }

  /** The number of cards of `s` that `categorizeAction` puts in category `c`. */
  function CategoryCount(s: seq<Card>, c: Category): nat
  {
    CountOf(s, CardCategory, c)
  }

  // ---------------------------------------------------------------------------
  // Quotas

  /** The minority categories in the order of `minCounts`. */
  const MinorityOrder: seq<Category> := [TimeBased, Duel1v1, GroupDuel]

  /** `Math.max(1, Math.ceil(targetCount * 0.10))`: the least count that is at
      least 1 and at least a tenth of the target. */
  function Quota(targetCount: int): (q: nat)
    ensures q >= 1 && targetCount <= 10 * q
    ensures 10 * q - 10 < Max(10, targetCount)
  {
    Max(1, CeilTenth(targetCount))
  }

  /** The number of cards the quota loop takes for category `c`. */
  function QuotaPicks(cards: seq<Card>, targetCount: int, c: Category): nat
  {
    Min(Quota(targetCount), CategoryCount(cards, c))
  }

  /** The number of cards the quota loop takes in all. */
  function Picks(cards: seq<Card>, targetCount: int): nat
  {
    QuotaPicks(cards, targetCount, TimeBased) + QuotaPicks(cards, targetCount, Duel1v1)
    + QuotaPicks(cards, targetCount, GroupDuel)
  }

  /** The size of the deck: the quota picks, then `slice(0, targetCount - picks)`
      of the leftovers, whose number is the pool size less the picks. */
  function DeckSize(cards: seq<Card>, targetCount: int): nat
  {
    PicksWithinPool(cards, targetCount);
    var p := Picks(cards, targetCount);
    p + SliceEnd(|cards| - p, targetCount - p)
  }

  lemma PicksWithinPool(cards: seq<Card>, targetCount: int)
    ensures Picks(cards, targetCount) <= |cards|
  {
    CountOfTotal(cards, CardCategory);
  }

  // ---------------------------------------------------------------------------
  // The four piles

  /** `categorized` and `reserves`: one pile per category, in the insertion
      order of `reserves`. */
  datatype Piles = Piles(timeBased: seq<Card>, duel: seq<Card>, group: seq<Card>, single: seq<Card>)
  {
    function Get(c: Category): seq<Card>
    {
      match c
      case TimeBased => timeBased
      case Duel1v1 => duel
      case GroupDuel => group
      case Single => single
    }

    function Set(c: Category, s: seq<Card>): (r: Piles)
      ensures r.Get(c) == s
      ensures forall d :: d != c ==> r.Get(d) == Get(d)
    {
      match c
      case TimeBased => this.(timeBased := s)
      case Duel1v1 => this.(duel := s)
      case GroupDuel => this.(group := s)
      case Single => this.(single := s)
    }

    /** `Object.values(reserves).flat()`. */
    function Pooled(): seq<Card>
    {
      timeBased + duel + group + single
    }

    /** Every pile holds only cards of its own category. */
    predicate Sorted(tag: Card -> Category)
    {
      && AllOf(timeBased, tag, TimeBased) && AllOf(duel, tag, Duel1v1)
      && AllOf(group, tag, GroupDuel) && AllOf(single, tag, Single)
    }
  }

  const EmptyPiles := Piles([], [], [], [])

  /** The piles hold exactly the cards of `cards`, each in the pile of its category. */
  predicate Partitioned(piles: Piles, cards: seq<Card>, tag: Card -> Category)
  {
    piles.Sorted(tag) && multiset(piles.Pooled()) == multiset(cards)
  }

  /** Replacing one pile changes the pooled multiset by exactly that pile. */
  lemma PooledUpdate(piles: Piles, c: Category, s: seq<Card>)
    ensures multiset(piles.Set(c, s).Pooled()) + multiset(piles.Get(c)) == multiset(piles.Pooled()) + multiset(s)
  {
  }

  lemma SortedPile(piles: Piles, tag: Card -> Category, c: Category)
    requires piles.Sorted(tag)
    ensures AllOf(piles.Get(c), tag, c)
  {
    match c
    case TimeBased =>
    case Duel1v1 =>
    case GroupDuel =>
    case Single =>
  }

  /** A sorted pile set stays sorted when a pile is replaced by one of the same
      category. */
  lemma SortedUpdate(piles: Piles, tag: Card -> Category, c: Category, s: seq<Card>)
    requires piles.Sorted(tag) && AllOf(s, tag, c)
    ensures piles.Set(c, s).Sorted(tag)
  {
  }

  /** Pushing the next card of the pool onto the pile of its category keeps the
      partition of the prefix read so far. */
  lemma PartitionedPush(piles: Piles, cards: seq<Card>, i: nat, tag: Card -> Category)
    requires i < |cards| && Partitioned(piles, cards[..i], tag)
    ensures Partitioned(piles.Set(tag(cards[i]), piles.Get(tag(cards[i])) + [cards[i]]), cards[..i + 1], tag)
  {
    var c := tag(cards[i]);
    var s := piles.Get(c) + [cards[i]];
    SortedPile(piles, tag, c);
    SortedUpdate(piles, tag, c, s);
    PooledUpdate(piles, c, s);
    assert cards[..i + 1] == cards[..i] + [cards[i]];
  }

  /** `s.filter(card => tag(card) === c)`: the cards of `s` in category `c`, in
      their order in `s`. */
  function OfCategory(s: seq<Card>, tag: Card -> Category, c: Category): seq<Card>
  {
    if s == [] then []
    else OfCategory(s[..|s| - 1], tag, c) + (if tag(s[|s| - 1]) == c then [s[|s| - 1]] else [])
  }

  /** The cards of a category, kept in order, number its count. */
  lemma {:induction false} OfCategoryCount(s: seq<Card>, tag: Card -> Category, c: Category)
    ensures |OfCategory(s, tag, c)| == CountOf(s, tag, c)
    ensures AllOf(OfCategory(s, tag, c), tag, c)
  {
    if s != [] {
      OfCategoryCount(s[..|s| - 1], tag, c);
    }
  }

  /** Reading one more card of the pool extends the pile of its category alone. */
  lemma OfCategoryPush(cards: seq<Card>, i: nat, tag: Card -> Category)
    requires i < |cards|
    ensures forall c :: OfCategory(cards[..i + 1], tag, c)
                        == OfCategory(cards[..i], tag, c) + (if tag(cards[i]) == c then [cards[i]] else [])
  {
    assert cards[..i + 1][..i] == cards[..i];
  }

  /** A partition counts each category by the length of its pile. */
  lemma PartitionedCounts(piles: Piles, cards: seq<Card>, tag: Card -> Category, c: Category)
    requires Partitioned(piles, cards, tag)
    ensures |piles.Get(c)| == CountOf(cards, tag, c)
  {
    CountOfPermutation(piles.Pooled(), cards, tag, c);
    var t, du, g, si := piles.timeBased, piles.duel, piles.group, piles.single;
    CountOfAppend(t + du + g, si, tag, c);
    CountOfAppend(t + du, g, tag, c);
    CountOfAppend(t, du, tag, c);
    CountOfAllOf(t, tag, TimeBased, c);
    CountOfAllOf(du, tag, Duel1v1, c);
    CountOfAllOf(g, tag, GroupDuel, c);
    CountOfAllOf(si, tag, Single, c);
  }

  // ---------------------------------------------------------------------------
  // The selection

  /** Sorts the pool into the four piles, in order (src/game.js:139-149). */
  method CategorizeAll(allCards: seq<Card>) returns (categorized: Piles)
    ensures Partitioned(categorized, allCards, CardCategory)
    ensures forall c :: categorized.Get(c) == OfCategory(allCards, CardCategory, c)
  {
    categorized := EmptyPiles;
    var i := 0;
    while i < |allCards|
      invariant 0 <= i <= |allCards|
      invariant Partitioned(categorized, allCards[..i], CardCategory)
      invariant forall c :: categorized.Get(c) == OfCategory(allCards[..i], CardCategory, c)
    {
      var category := CardCategory(allCards[i]);
      PartitionedPush(categorized, allCards, i, CardCategory);
      OfCategoryPush(allCards, i, CardCategory);
      categorized := categorized.Set(category, categorized.Get(category) + [allCards[i]]);
      i := i + 1;
    }
    assert allCards[..i] == allCards;
  }

  /** The inner quota loop (src/game.js:167-171): `count` times, removes the
      card at a random index of the reserve with `splice(idx, 1)` and takes it.
      Returns the cards taken, what is left of the reserve, and the index of
      the next unused draw. */
  method TakeRandom(reserve: seq<Card>, count: nat, random: nat -> real, next: nat)
    returns (taken: seq<Card>, rest: seq<Card>, after: nat)
    requires IsRandomStream(random)
    requires count <= |reserve|
    ensures |taken| == count && |rest| == |reserve| - count
    ensures multiset(taken) + multiset(rest) == multiset(reserve)
    ensures after == next + count
  {
    taken, rest, after := [], reserve, next;
    var i := 0;
    while i < count
      invariant 0 <= i <= count
      invariant |taken| == i && |rest| == |reserve| - i
      invariant multiset(taken) + multiset(rest) == multiset(reserve)
      invariant after == next + i
    {
      var idx := RandomIndex(random(after), |rest|);
      assert rest == rest[..idx] + [rest[idx]] + rest[idx + 1..];
      taken := taken + [rest[idx]];
      rest := rest[..idx] + rest[idx + 1..];
      after := after + 1;
      i := i + 1;
    }
  }

  /** The quota loop (src/game.js:166-172): for each minority category in
      turn, takes `min(quota, reserve size)` random cards of its reserve. The
      piles are sorted by `tag`, the classifier of the caller. */
  method TakeQuotas(categorized: Piles, allCards: seq<Card>, targetCount: int, random: nat -> real,
                    ghost tag: Card -> Category)
    returns (result: seq<Card>, reserves: Piles, next: nat)
    requires IsRandomStream(random)
    requires Partitioned(categorized, allCards, tag)
    ensures multiset(result) + multiset(reserves.Pooled()) == multiset(allCards)
    ensures forall c: Category ::
              CountOf(result, tag, c) == if c == Single then 0 else Min(Quota(targetCount), CountOf(allCards, tag, c))
  {
    var quota := Quota(targetCount);
    result, reserves, next := [], categorized, 0;
    QuotaStart(categorized, allCards, tag, quota);
    var m := 0;
    while m < |MinorityOrder|
      invariant 0 <= m <= |MinorityOrder|
      invariant QuotaProgress(result, reserves, allCards, tag, quota, m)
    {
      var category := MinorityOrder[m];
      var reserve := reserves.Get(category);
      var available := Min(quota, |reserve|);
      var taken, rest;
      taken, rest, next := TakeRandom(reserve, available, random, next);
      TakeStep(result, reserves, allCards, tag, quota, m, taken, rest);
      result := result + taken;
      reserves := reserves.Set(category, rest);
      m := m + 1;
    }
    QuotaDone(result, reserves, allCards, tag, quota);
  }

  /** After the first `m` rounds of the quota loop: every card is in the result
      or a reserve, each reserve is sorted, and each category's count in the
      result is its quota for the rounds done and zero for the rest. */
  ghost predicate QuotaProgress(result: seq<Card>, reserves: Piles, allCards: seq<Card>,
                                tag: Card -> Category, quota: nat, m: nat)
    requires m <= |MinorityOrder|
  {
    Accounted(result, reserves, allCards, tag) && QuotaCounts(result, allCards, tag, quota, m)
  }

  /** Every card of the pool is in the result or in the reserve of its category. */
  ghost predicate Accounted(result: seq<Card>, reserves: Piles, allCards: seq<Card>, tag: Card -> Category)
  {
    && reserves.Sorted(tag)
    && multiset(result) + multiset(reserves.Pooled()) == multiset(allCards)
    && (forall c: Category :: CountOf(result, tag, c) + |reserves.Get(c)| == CountOf(allCards, tag, c))
  }

  /** The result holds the quota of each category of the first `m` rounds, and
      no card of any other category. */
  ghost predicate QuotaCounts(result: seq<Card>, allCards: seq<Card>, tag: Card -> Category, quota: nat, m: nat)
    requires m <= |MinorityOrder|
  {
    && (forall k :: 0 <= k < m ==>
          CountOf(result, tag, MinorityOrder[k]) == Min(quota, CountOf(allCards, tag, MinorityOrder[k])))
    && (forall k :: m <= k < |MinorityOrder| ==> CountOf(result, tag, MinorityOrder[k]) == 0)
    && CountOf(result, tag, Single) == 0
  }

  lemma QuotaStart(categorized: Piles, allCards: seq<Card>, tag: Card -> Category, quota: nat)
    requires Partitioned(categorized, allCards, tag)
    ensures QuotaProgress([], categorized, allCards, tag, quota, 0)
  {
    forall c: Category ensures |categorized.Get(c)| == CountOf(allCards, tag, c) {
      PartitionedCounts(categorized, allCards, tag, c);
    }
  }

  lemma QuotaDone(result: seq<Card>, reserves: Piles, allCards: seq<Card>, tag: Card -> Category, quota: nat)
    requires QuotaProgress(result, reserves, allCards, tag, quota, |MinorityOrder|)
    ensures forall c: Category ::
              CountOf(result, tag, c) == if c == Single then 0 else Min(quota, CountOf(allCards, tag, c))
  {
    forall c: Category
      ensures CountOf(result, tag, c) == if c == Single then 0 else Min(quota, CountOf(allCards, tag, c))
    {
      if c != Single {
        assert c == MinorityOrder[0] || c == MinorityOrder[1] || c == MinorityOrder[2];
      }
    }
  }

  /** One round of the quota loop: the `min(quota, reserve size)` cards taken
      from the reserve of round `m` move to the result. */
  lemma TakeStep(result: seq<Card>, reserves: Piles, allCards: seq<Card>, tag: Card -> Category,
                 quota: nat, m: nat, taken: seq<Card>, rest: seq<Card>)
    requires m < |MinorityOrder| && QuotaProgress(result, reserves, allCards, tag, quota, m)
    requires |taken| == Min(quota, |reserves.Get(MinorityOrder[m])|)
    requires multiset(taken) + multiset(rest) == multiset(reserves.Get(MinorityOrder[m]))
    ensures QuotaProgress(result + taken, reserves.Set(MinorityOrder[m], rest), allCards, tag, quota, m + 1)
  {
    var category := MinorityOrder[m];
    MoveTaken(result, reserves, tag, category, taken, rest);
    AccountedStep(result, reserves, allCards, tag, category, taken, rest);
    QuotaCountsStep(result, allCards, tag, quota, m, taken, CountOf(result, tag, category) + |reserves.Get(category)|);
  }

  lemma AccountedStep(result: seq<Card>, reserves: Piles, allCards: seq<Card>, tag: Card -> Category,
                      category: Category, taken: seq<Card>, rest: seq<Card>)
    requires Accounted(result, reserves, allCards, tag)
    requires reserves.Set(category, rest).Sorted(tag)
    requires multiset(result + taken) + multiset(reserves.Set(category, rest).Pooled())
             == multiset(result) + multiset(reserves.Pooled())
    requires forall c: Category ::
               CountOf(result + taken, tag, c) == CountOf(result, tag, c) + (if c == category then |taken| else 0)
    requires |rest| == |reserves.Get(category)| - |taken|
    ensures Accounted(result + taken, reserves.Set(category, rest), allCards, tag)
  {
  }

  lemma QuotaCountsStep(result: seq<Card>, allCards: seq<Card>, tag: Card -> Category, quota: nat, m: nat,
                        taken: seq<Card>, available: nat)
    requires m < |MinorityOrder| && QuotaCounts(result, allCards, tag, quota, m)
    requires available == CountOf(allCards, tag, MinorityOrder[m]) && CountOf(result, tag, MinorityOrder[m]) == 0
    requires |taken| == Min(quota, available)
    requires forall c: Category ::
               CountOf(result + taken, tag, c) == CountOf(result, tag, c) + (if c == MinorityOrder[m] then |taken| else 0)
    ensures QuotaCounts(result + taken, allCards, tag, quota, m + 1)
  {
  }

  /** Moving `taken` from the reserve of `category` to the result keeps the
      piles sorted and the cards accounted for, and raises the count of
      `category` alone. */
  lemma MoveTaken(result: seq<Card>, reserves: Piles, tag: Card -> Category, category: Category,
                  taken: seq<Card>, rest: seq<Card>)
    requires reserves.Sorted(tag)
    requires multiset(taken) + multiset(rest) == multiset(reserves.Get(category))
    ensures reserves.Set(category, rest).Sorted(tag)
    ensures multiset(result + taken) + multiset(reserves.Set(category, rest).Pooled())
            == multiset(result) + multiset(reserves.Pooled())
    ensures forall c: Category ::
              CountOf(result + taken, tag, c) == CountOf(result, tag, c) + (if c == category then |taken| else 0)
    ensures |rest| == |reserves.Get(category)| - |taken|
  {
    var reserve := reserves.Get(category);
    SortedPile(reserves, tag, category);
    AllOfSubMultiset(taken, reserve, tag, category);
    AllOfSubMultiset(rest, reserve, tag, category);
    SortedUpdate(reserves, tag, category, rest);
    CountAfterTake(result, taken, tag, category);
    MoveAccounted(result, reserves, category, taken, rest);
  }

  /** Moving cards from one reserve to the result loses none and adds none. */
  lemma MoveAccounted(result: seq<Card>, reserves: Piles, category: Category, taken: seq<Card>, rest: seq<Card>)
    requires multiset(taken) + multiset(rest) == multiset(reserves.Get(category))
    ensures multiset(result + taken) + multiset(reserves.Set(category, rest).Pooled())
            == multiset(result) + multiset(reserves.Pooled())
    ensures |rest| == |reserves.Get(category)| - |taken|
  {
    PooledUpdate(reserves, category, rest);
    assert |multiset(taken) + multiset(rest)| == |multiset(reserves.Get(category))|;
  }

  /** Appending cards of one category raises that category's count only. */
  lemma CountAfterTake(result: seq<Card>, taken: seq<Card>, tag: Card -> Category, category: Category)
    requires AllOf(taken, tag, category)
    ensures forall c: Category ::
              CountOf(result + taken, tag, c) == CountOf(result, tag, c) + (if c == category then |taken| else 0)
  {
    forall c: Category
      ensures CountOf(result + taken, tag, c) == CountOf(result, tag, c) + (if c == category then |taken| else 0)
    {
      CountOfAppend(result, taken, tag, c);
      CountOfAllOf(taken, tag, category, c);
    }
  }

  /** `selectCardsWithBalance`: the quota picks, then the leftovers of all four
      reserves shuffled and cut with `slice(0, targetCount - picks)`, the whole
      shuffled once more. Draws from `random` are taken in the order the
      source calls `Math.random()`. */
  method SelectCardsWithBalance(allCards: seq<Card>, targetCount: int, random: nat -> real)
    returns (deck: seq<Card>)
    requires IsRandomStream(random)
    ensures multiset(deck) <= multiset(allCards)
    ensures forall c :: c in MinorityOrder ==> CategoryCount(deck, c) >= QuotaPicks(allCards, targetCount, c)
    ensures |deck| == DeckSize(allCards, targetCount)
    ensures targetCount >= |allCards| ==> multiset(deck) == multiset(allCards)
  {
    var categorized := CategorizeAll(allCards);
    var result, reserves, next := TakeQuotas(categorized, allCards, targetCount, random, CardCategory);
    ghost var picked := result;

    var remaining := targetCount - |result|;
    var allRemaining := reserves.Pooled();
    var shuffled := ShuffleArray(allRemaining, (k: nat) => random(next + k));
    next := next + ShuffleDraws(|allRemaining|);
    result := result + SlicePrefix(shuffled, remaining);
    deck := ShuffleArray(result, (k: nat) => random(next + k));
    FillAndShuffle(allCards, targetCount, picked, allRemaining, shuffled, deck);
  }

  /** The last steps (src/game.js:174-179) meet the contract of the selection:
      whatever the two shuffles return, the deck keeps the quota picks, takes
      `targetCount - picks` leftovers (or drops from their end when that is
      negative), and uses the whole pool when the target covers it. */
  lemma FillAndShuffle(allCards: seq<Card>, targetCount: int, picked: seq<Card>,
                       leftovers: seq<Card>, shuffled: seq<Card>, deck: seq<Card>)
    requires multiset(picked) + multiset(leftovers) == multiset(allCards)
    requires forall c: Category ::
               CategoryCount(picked, c) == if c == Single then 0 else QuotaPicks(allCards, targetCount, c)
    requires multiset(shuffled) == multiset(leftovers)
    requires multiset(deck) == multiset(picked + SlicePrefix(shuffled, targetCount - |picked|))
    ensures multiset(deck) <= multiset(allCards)
    ensures forall c :: c in MinorityOrder ==> CategoryCount(deck, c) >= QuotaPicks(allCards, targetCount, c)
    ensures |deck| == DeckSize(allCards, targetCount)
    ensures targetCount >= |allCards| ==> multiset(deck) == multiset(allCards)
  {
    PickedSize(allCards, targetCount, picked);
    FillMultiset(allCards, picked, leftovers, shuffled, deck, targetCount - |picked|);
    CountsKept(deck, picked, SlicePrefix(shuffled, targetCount - |picked|), CardCategory);
  }

  /** Topping the picks up with a prefix of the shuffled leftovers: the deck
      draws on the pool, and takes all of it when the prefix is the whole. */
  lemma FillMultiset(allCards: seq<Card>, picked: seq<Card>, leftovers: seq<Card>, shuffled: seq<Card>,
                     deck: seq<Card>, end: int)
    requires multiset(picked) + multiset(leftovers) == multiset(allCards)
    requires multiset(shuffled) == multiset(leftovers)
    requires multiset(deck) == multiset(picked + SlicePrefix(shuffled, end))
    ensures |shuffled| == |allCards| - |picked|
    ensures |deck| == |picked| + SliceEnd(|shuffled|, end)
    ensures multiset(deck) <= multiset(allCards)
    ensures end >= |shuffled| ==> multiset(deck) == multiset(allCards)
  {
    var tail := SlicePrefix(shuffled, end);
    assert shuffled == tail + shuffled[|tail|..];
    assert |shuffled| == |allCards| - |picked| by {
      assert |multiset(picked) + multiset(leftovers)| == |multiset(allCards)|;
      assert |multiset(shuffled)| == |multiset(leftovers)|;
    }
    assert |deck| == |picked| + |tail| by {
      assert |multiset(deck)| == |multiset(picked + tail)|;
    }
    if end >= |shuffled| {
      assert tail == shuffled;
    }
  }

  /** A reordering of `picked + tail` has at least as many cards of each
      category as `picked`. */
  lemma CountsKept(deck: seq<Card>, picked: seq<Card>, tail: seq<Card>, tag: Card -> Category)
    requires multiset(deck) == multiset(picked + tail)
    ensures forall c :: CountOf(deck, tag, c) >= CountOf(picked, tag, c)
  {
    forall c ensures CountOf(deck, tag, c) >= CountOf(picked, tag, c) {
      CountOfPermutation(deck, picked + tail, tag, c);
      CountOfAppend(picked, tail, tag, c);
    }
  }

  /** The quota picks number `Picks`: their counts add up by category. */
  lemma PickedSize(allCards: seq<Card>, targetCount: int, picked: seq<Card>)
    requires forall c: Category ::
               CategoryCount(picked, c) == if c == Single then 0 else QuotaPicks(allCards, targetCount, c)
    ensures |picked| == Picks(allCards, targetCount)
  {
    CountOfTotal(picked, CardCategory);
    assert CategoryCount(picked, TimeBased) == QuotaPicks(allCards, targetCount, TimeBased);
    assert CategoryCount(picked, Duel1v1) == QuotaPicks(allCards, targetCount, Duel1v1);
    assert CategoryCount(picked, GroupDuel) == QuotaPicks(allCards, targetCount, GroupDuel);
    assert CategoryCount(picked, Single) == 0;
  }

  // ---------------------------------------------------------------------------
  // The size of the deck

  /** When the caller asks for at least 3 and at most the pool size, the deck
      has exactly the size asked for: the three quotas fit in the target. */
  lemma DeckSizeExact(cards: seq<Card>, targetCount: int)
    requires 3 <= targetCount <= |cards|
    ensures DeckSize(cards, targetCount) == targetCount
  {
    PicksWithinPool(cards, targetCount);
    var q := Quota(targetCount);
    assert 3 * q <= targetCount;
  }

  /** Below 3 the three quotas of one card each exceed the target:
      `targetCount - picks` is then negative and `slice` counts from the back
      of the leftovers, dropping only `3 - targetCount` of them. So the deck
      holds all of the pool but `3 - targetCount` cards, and never fewer than
      the 3 quota picks. */
  lemma DeckOvershoot(cards: seq<Card>, targetCount: int)
    requires targetCount < 3
    requires forall c :: c in MinorityOrder ==> CategoryCount(cards, c) >= 1
    ensures DeckSize(cards, targetCount) == Max(|cards| + targetCount - 3, 3)
    ensures DeckSize(cards, targetCount) >= 3 > targetCount
  {
    assert Quota(targetCount) == 1;
    assert Picks(cards, targetCount) == 3 by {
      assert TimeBased in MinorityOrder && Duel1v1 in MinorityOrder && GroupDuel in MinorityOrder;
    }
  }
}
