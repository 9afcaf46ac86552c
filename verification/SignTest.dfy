/** The exact two-sided sign test over paired runs, in exact arithmetic, and the win, loss and tie
    counts it is given. */
module SignTest {
  /** math.comb, by Pascal's rule. */
  function Comb(n: nat, k: nat): nat {
    if k == 0 then 1 else if n == 0 then 0 else Comb(n - 1, k - 1) + Comb(n - 1, k)
  }

  /** sum(comb(n, i) for i in range(k + 1)). */
  function Tail(n: nat, k: nat): nat {
    if k == 0 then Comb(n, 0) else Tail(n, k - 1) + Comb(n, k)
  }

  function Half(n: nat): (h: real)
    ensures h > 0.0
  {
    if n == 0 then 1.0 else Half(n - 1) / 2.0
  }

  function Pow2(n: nat): (p: nat)
    ensures p >= 1
  {
    if n == 0 then 1 else 2 * Pow2(n - 1)
  }

  function Min(a: nat, b: nat): nat { if a < b then a else b }

  /** 2 * tail, before it is clamped to 1. */
  function TwoTails(wins: nat, losses: nat): real {
    2.0 * (Tail(wins + losses, Min(wins, losses)) as real * Half(wins + losses))
  }

  /** sign_test_p. */
  function SignTestP(wins: nat, losses: nat): real {
    if wins + losses == 0 then 1.0
    else if TwoTails(wins, losses) < 1.0 then TwoTails(wins, losses)
    else 1.0
  }

  // ---------------------------------------------------------------------------
  // What it counts
  // ---------------------------------------------------------------------------

  /** Every sequence of n wins (true) and losses (false). */
  function Sequences(n: nat): set<seq<bool>> {
    if n == 0 then {[]} else Led(true, Sequences(n - 1)) + Led(false, Sequences(n - 1))
  }

  function Led(first: bool, rest: set<seq<bool>>): set<seq<bool>> {
    set s | s in rest :: [first] + s
  }

  function Wins(s: seq<bool>): (w: nat)
    ensures w <= |s|
  {
    if s == [] then 0 else (if s[0] then 1 else 0) + Wins(s[1..])
  }

  function Losses(s: seq<bool>): nat { |s| - Wins(s) }

  /** The sequences whose rarer outcome occurs at most k times. */
  function Lopsided(n: nat, k: nat): set<seq<bool>> {
    set s | s in Sequences(n) && Min(Wins(s), Losses(s)) <= k
  }

  function Won(n: nat, k: nat): set<seq<bool>> { set s | s in Sequences(n) && Wins(s) == k }

  function WonAtMost(n: nat, k: nat): set<seq<bool>> { set s | s in Sequences(n) && Wins(s) <= k }

  function LostAtMost(n: nat, k: nat): set<seq<bool>> { set s | s in Sequences(n) && Losses(s) <= k }

  lemma InLed(first: bool, rest: set<seq<bool>>, s: seq<bool>)
    ensures s in Led(first, rest) <==> s != [] && s[0] == first && s[1..] in rest
  {
    if s != [] && s[0] == first && s[1..] in rest {
      assert s == [first] + s[1..];
    }
    if s in Led(first, rest) {
      var r :| r in rest && s == [first] + r;
      assert s[1..] == r;
    }
  }

  lemma {:induction false} SequencesAreAll(n: nat, s: seq<bool>)
    ensures s in Sequences(n) <==> |s| == n
  {
    if n > 0 {
      InLed(true, Sequences(n - 1), s);
      InLed(false, Sequences(n - 1), s);
      if s != [] {
        SequencesAreAll(n - 1, s[1..]);
      }
    }
  }

  lemma {:induction false} LedHasAll(first: bool, rest: set<seq<bool>>)
    ensures |Led(first, rest)| == |rest|
  {
    if rest != {} {
      var s :| s in rest;
      LedHasAll(first, rest - {s});
      forall r | r in rest && r != s ensures [first] + r != [first] + s {
        assert ([first] + r)[1..] == r && ([first] + s)[1..] == s;
      }
      assert Led(first, rest) == Led(first, rest - {s}) + {[first] + s};
    }
  }

  lemma LedApart(a: set<seq<bool>>, b: set<seq<bool>>)
    ensures Led(true, a) !! Led(false, b)
  {
    forall s: seq<bool> ensures !(s in Led(true, a) && s in Led(false, b)) {
      InLed(true, a, s);
      InLed(false, b, s);
    }
  }

  lemma {:induction false} SequencesCount(n: nat)
    ensures |Sequences(n)| == Pow2(n)
  {
    if n > 0 {
      SequencesCount(n - 1);
      LedHasAll(true, Sequences(n - 1));
      LedHasAll(false, Sequences(n - 1));
      LedApart(Sequences(n - 1), Sequences(n - 1));
    }
  }

  /** A sequence with k wins starts with a win and holds k - 1 more, or with a loss. */
  lemma WonSplits(n: nat, k: nat)
    requires n > 0
    ensures Won(n, k) == Led(true, if k == 0 then {} else Won(n - 1, k - 1)) + Led(false, Won(n - 1, k))
  {
  }

  lemma WonAddsUp(n: nat, k: nat)
    requires n > 0
    ensures |Won(n, k)| == (if k == 0 then 0 else |Won(n - 1, k - 1)|) + |Won(n - 1, k)|
  {
    var fewer := if k == 0 then {} else Won(n - 1, k - 1);
    WonSplits(n, k);
    LedApart(fewer, Won(n - 1, k));
    LedHasAll(true, fewer);
    LedHasAll(false, Won(n - 1, k));
    hide Won, Led;
    assert |Won(n, k)| == |Led(true, fewer)| + |Led(false, Won(n - 1, k))|;
  }

  lemma NothingPlayed(k: nat)
    ensures |Won(0, k)| == Comb(0, k)
  {
    assert Won(0, k) == if k == 0 then {[]} else {};
  }

  /** comb(n, k) counts the sequences with k wins. */
  lemma {:induction false} CombCounts(n: nat, k: nat)
    ensures |Won(n, k)| == Comb(n, k)
    decreases n
  {
    hide Won;
    if n == 0 {
      NothingPlayed(k);
    } else {
      WonAddsUp(n, k);
      CombCounts(n - 1, k);
      if k > 0 {
        CombCounts(n - 1, k - 1);
      }
    }
  }

  lemma {:induction false} TailCounts(n: nat, k: nat)
    ensures |WonAtMost(n, k)| == Tail(n, k)
    decreases k
  {
    CombCounts(n, k);
    if k == 0 {
      assert WonAtMost(n, 0) == Won(n, 0);
    } else {
      TailCounts(n, k - 1);
      assert WonAtMost(n, k) == WonAtMost(n, k - 1) + Won(n, k);
      assert WonAtMost(n, k - 1) !! Won(n, k);
    }
  }

  function Flip(s: seq<bool>): (f: seq<bool>)
    ensures |f| == |s| && forall i :: 0 <= i < |s| ==> f[i] == !s[i]
  {
    seq(|s|, i requires 0 <= i < |s| => !s[i])
  }

  lemma {:induction false} FlipSwaps(s: seq<bool>)
    ensures Wins(Flip(s)) == Losses(s) && Flip(Flip(s)) == s
  {
    if s != [] {
      FlipSwaps(s[1..]);
      assert Flip(s)[1..] == Flip(s[1..]);
    }
  }

  function Flips(a: set<seq<bool>>): set<seq<bool>> { set s | s in a :: Flip(s) }

  lemma {:induction false} FlipsHasAll(a: set<seq<bool>>)
    ensures |Flips(a)| == |a|
  {
    if a != {} {
      var s :| s in a;
      FlipsHasAll(a - {s});
      forall r | r in a && Flip(r) == Flip(s) ensures r == s {
        FlipSwaps(r);
        FlipSwaps(s);
      }
      assert Flips(a) == Flips(a - {s}) + {Flip(s)};
    }
  }

  lemma LossTailCounts(n: nat, k: nat)
    ensures |LostAtMost(n, k)| == Tail(n, k)
  {
    TailCounts(n, k);
    FlipsHasAll(WonAtMost(n, k));
    forall s ensures s in LostAtMost(n, k) <==> s in Flips(WonAtMost(n, k)) {
      FlipSwaps(s);
      SequencesAreAll(n, s);
      SequencesAreAll(n, Flip(s));
      if s in LostAtMost(n, k) {
        assert Flip(s) in WonAtMost(n, k) && s == Flip(Flip(s));
      }
      if s in Flips(WonAtMost(n, k)) {
        var r :| r in WonAtMost(n, k) && s == Flip(r);
        FlipSwaps(r);
      }
    }
    assert LostAtMost(n, k) == Flips(WonAtMost(n, k));
  }

  lemma UnionAndOverlap<T>(a: set<T>, b: set<T>)
    ensures |a| + |b| == |a + b| + |a * b|
  {
  }

  /** Twice the tail counts the lopsided sequences, those with as many wins as losses twice. */
  lemma TwiceTheTail(wins: nat, losses: nat)
    ensures var n, k := wins + losses, Min(wins, losses);
      2 * Tail(n, k) == |Lopsided(n, k)| + if wins == losses then Comb(n, k) else 0
  {
    var n, k := wins + losses, Min(wins, losses);
    TailCounts(n, k);
    LossTailCounts(n, k);
    UnionAndOverlap(WonAtMost(n, k), LostAtMost(n, k));
    assert WonAtMost(n, k) + LostAtMost(n, k) == Lopsided(n, k);
    forall s | s in Sequences(n) ensures |s| == n {
      SequencesAreAll(n, s);
    }
    if wins == losses {
      assert WonAtMost(n, k) * LostAtMost(n, k) == Won(n, k);
      CombCounts(n, k);
    } else {
      assert WonAtMost(n, k) * LostAtMost(n, k) == {};
    }
  }

  lemma {:induction false} HalvesUndo(n: nat)
    ensures Half(n) * Pow2(n) as real == 1.0
  {
    if n > 0 {
      HalvesUndo(n - 1);
    }
  }

  lemma LopsidedFits(n: nat, k: nat)
    ensures |Lopsided(n, k)| <= Pow2(n)
    ensures 2 * k >= n ==> |Lopsided(n, k)| == Pow2(n)
  {
    SequencesCount(n);
    Within(Lopsided(n, k), Sequences(n));
    if 2 * k >= n {
      forall s | s in Sequences(n) ensures s in Lopsided(n, k) {
        SequencesAreAll(n, s);
      }
      assert Lopsided(n, k) == Sequences(n);
    }
  }

  lemma Within<T>(a: set<T>, b: set<T>)
    requires a <= b
    ensures |a| <= |b| && (a != b ==> |a| < |b|)
  {
    assert b == a + (b - a);
    if a != b {
      var x :| x in b - a;
    }
  }

  lemma SomeoneWon(n: nat, k: nat)
    requires k <= n
    ensures Comb(n, k) >= 1
  {
  }

  /** Scaled by 2^n, the two tails are the whole number they count. */
  lemma TwoTailsScaled(wins: nat, losses: nat)
    ensures var n := wins + losses; TwoTails(wins, losses) * Pow2(n) as real == (2 * Tail(n, Min(wins, losses))) as real
  {
    var n := wins + losses;
    HalvesUndo(n);
    Regrouped(Tail(n, Min(wins, losses)) as real, Half(n), Pow2(n) as real);
    hide Tail, Half, Pow2;
  }

  lemma Regrouped(t: real, h: real, p: real)
    requires h * p == 1.0
    ensures 2.0 * (t * h) * p == 2.0 * t
  {
    assert 2.0 * (t * h) * p == 2.0 * t * (h * p);
  }

  /** The clamp bites exactly when there are as many wins as losses, and some of each. */
  lemma ClampBitesExactlyOnATie(wins: nat, losses: nat)
    requires wins + losses > 0
    ensures TwoTails(wins, losses) > 1.0 <==> wins == losses
  {
    var n, k := wins + losses, Min(wins, losses);
    hide TwoTails, Tail, Comb, Lopsided, Pow2, Half;
    TwoTailsScaled(wins, losses);
    TwiceTheTail(wins, losses);
    LopsidedFits(n, k);
    SomeoneWon(n, k);
    OverOne(TwoTails(wins, losses), Pow2(n), 2 * Tail(n, k));
  }

  lemma OverOne(t: real, scale: nat, count: nat)
    requires scale > 0 && t * scale as real == count as real
    ensures t > 1.0 <==> count > scale
  {
    ScaleOrder(1.0, t, scale as real);
  }

  lemma ScaleOrder(a: real, b: real, s: real)
    requires s > 0.0
    ensures a < b <==> a * s < b * s
    ensures a == b <==> a * s == b * s
  {
  }

  lemma NothingPlayedAtAll()
    ensures Pow2(0) == 1
  {
  }

  /** The p-value times 2^n is the number of win and loss sequences of length n at least as lopsided as
      the observed one. */
  lemma PValueCountsLopsided(wins: nat, losses: nat)
    ensures var n := wins + losses;
            SignTestP(wins, losses) * Pow2(n) as real == |Lopsided(n, Min(wins, losses))| as real
  {
    hide TwoTails, Tail, Comb, Lopsided;
    var n, k := wins + losses, Min(wins, losses);
    TwoTailsScaled(wins, losses);
    TwiceTheTail(wins, losses);
    LopsidedFits(n, k);
    NothingPlayedAtAll();
    hide Pow2;
    if n > 0 {
      ClampBitesExactlyOnATie(wins, losses);
    }
  }

  /** The p-value is a probability, and does not depend on which arm is called the winner. */
  lemma PValueIsAProbability(wins: nat, losses: nat)
    ensures 0.0 < SignTestP(wins, losses) <= 1.0
    ensures SignTestP(wins, losses) == SignTestP(losses, wins)
  {
    hide Tail, Comb, Half;
    var n, k := wins + losses, Min(wins, losses);
    SomeInTail(n, k);
    ProductIsPositive(Tail(n, k) as real, Half(n));
    assert losses + wins == n && Min(losses, wins) == k;
    assert TwoTails(wins, losses) == TwoTails(losses, wins) > 0.0;
    hide TwoTails;
  }

  lemma ProductIsPositive(a: real, b: real)
    requires a > 0.0 && b > 0.0
    ensures a * b > 0.0
  {
  }

  lemma {:induction false} SomeInTail(n: nat, k: nat)
    ensures Tail(n, k) >= 1
    decreases k
  {
    if k > 0 {
      SomeInTail(n, k - 1);
    }
  }

  lemma MoreAreLopsided(n: nat, k: nat, k': nat)
    requires k < k' && 2 * k' <= n
    ensures |Lopsided(n, k)| < |Lopsided(n, k')|
  {
    WinsWanted(n, k');
    assert WithWins(n, k') in Lopsided(n, k') - Lopsided(n, k);
    Within(Lopsided(n, k), Lopsided(n, k'));
  }

  /** Among runs of one length the p-value strictly falls as the rarer outcome gets rarer. */
  lemma PValueFalls(wins: nat, losses: nat, wins': nat, losses': nat)
    requires wins + losses == wins' + losses' && Min(wins, losses) < Min(wins', losses')
    ensures SignTestP(wins, losses) < SignTestP(wins', losses')
  {
    var n, k, k' := wins + losses, Min(wins, losses), Min(wins', losses');
    hide SignTestP, Lopsided, Pow2, Tail, Comb, Sequences;
    PValueCountsLopsided(wins, losses);
    PValueCountsLopsided(wins', losses');
    assert wins' + losses' == n && 2 * k' <= n;
    MoreAreLopsided(n, k, k');
    var scale := Pow2(n) as real;
    assert SignTestP(wins, losses) * scale == |Lopsided(n, k)| as real;
    assert SignTestP(wins', losses') * scale == |Lopsided(n, k')| as real;
    ScaleOrder(SignTestP(wins, losses), SignTestP(wins', losses'), scale);
  }

  /** A sequence of length n with k wins. */
  function WithWins(n: nat, k: nat): seq<bool>
    requires k <= n
  {
    if n == 0 then [] else [k > 0] + WithWins(n - 1, if k > 0 then k - 1 else 0)
  }

  lemma {:induction false} WinsWanted(n: nat, k: nat)
    requires k <= n
    ensures Wins(WithWins(n, k)) == k && WithWins(n, k) in Sequences(n) && |WithWins(n, k)| == n
  {
    if n > 0 {
      WinsWanted(n - 1, if k > 0 then k - 1 else 0);
      var rest := WithWins(n - 1, if k > 0 then k - 1 else 0);
      assert WithWins(n, k)[1..] == rest;
      InLed(k > 0, Sequences(n - 1), WithWins(n, k));
    }
  }

  // ---------------------------------------------------------------------------
  // The headline's counts
  // ---------------------------------------------------------------------------

  datatype Pair = Pair(base: real, ccx: real)

  datatype Headline = Headline(n: nat, wins: nat, losses: nat, ties: nat, p: real, skipped: nat)

  function Live(pairs: seq<Pair>): (live: seq<Pair>)
    ensures |live| <= |pairs|
  {
    if pairs == [] then []
    else if pairs[0].base != 0.0 then [pairs[0]] + Live(pairs[1..])
    else Live(pairs[1..])
  }

  /** sum(1 for p in pairs if holds(p)). */
  function Count(pairs: seq<Pair>, holds: Pair -> bool): nat {
    if pairs == [] then 0 else (if holds(pairs[0]) then 1 else 0) + Count(pairs[1..], holds)
  }

  predicate Win(p: Pair) { p.ccx < p.base }

  predicate Loss(p: Pair) { p.ccx > p.base }

  predicate Tie(p: Pair) { p.ccx == p.base }

  /** _headline's counts and p-value. */
  function Paired(pairs: seq<Pair>): Headline {
    var live := Live(pairs);
    if live == [] then Headline(0, 0, 0, 0, 1.0, |pairs|)
    else
      var wins, losses := Count(live, Win), Count(live, Loss);
      Headline(|live|, wins, losses, Count(live, Tie), SignTestP(wins, losses), |pairs| - |live|)
  }

  lemma {:induction false} OutcomesCoverAll(pairs: seq<Pair>)
    ensures Count(pairs, Win) + Count(pairs, Loss) + Count(pairs, Tie) == |pairs|
  {
    if pairs != [] {
      OutcomesCoverAll(pairs[1..]);
    }
  }

  /** Every pair is a win, a loss, a tie or skipped, in exactly one way. */
  lemma EveryPairIsCounted(pairs: seq<Pair>)
    ensures var h := Paired(pairs); h.wins + h.losses + h.ties == h.n && h.n + h.skipped == |pairs|
    ensures 0.0 < Paired(pairs).p <= 1.0
  {
    OutcomesCoverAll(Live(pairs));
    PValueIsAProbability(Paired(pairs).wins, Paired(pairs).losses);
  }

  function Swapped(pairs: seq<Pair>): seq<Pair> {
    if pairs == [] then [] else [Pair(pairs[0].ccx, pairs[0].base)] + Swapped(pairs[1..])
  }

  /** A pair that only one order of the arms skips. */
  predicate BaseIsZero(p: Pair) { p.base == 0.0 && p.ccx != 0.0 }

  predicate CcxIsZero(p: Pair) { p.ccx == 0.0 && p.base != 0.0 }

  /** Token counts are never negative. */
  predicate Tokens(pairs: seq<Pair>) {
    forall p :: p in pairs ==> p.base >= 0.0 && p.ccx >= 0.0
  }

  lemma {:induction false} SwappedOutcomes(pairs: seq<Pair>)
    requires Tokens(pairs)
    ensures |Swapped(pairs)| == |pairs|
    ensures Count(Live(Swapped(pairs)), Win) == Count(Live(pairs), Loss) + Count(pairs, BaseIsZero)
    ensures Count(Live(Swapped(pairs)), Loss) + Count(pairs, CcxIsZero) == Count(Live(pairs), Win)
    ensures Count(Live(Swapped(pairs)), Tie) == Count(Live(pairs), Tie)
  {
    if pairs != [] {
      assert pairs[0] in pairs;
      SwappedOutcomes(pairs[1..]);
      assert Swapped(pairs)[1..] == Swapped(pairs[1..]);
      CountMore(pairs[0], Live(pairs[1..]));
      CountMore(Pair(pairs[0].ccx, pairs[0].base), Live(Swapped(pairs[1..])));
    }
  }

  lemma CountMore(p: Pair, pairs: seq<Pair>)
    ensures Count([p] + pairs, Win) == (if Win(p) then 1 else 0) + Count(pairs, Win)
    ensures Count([p] + pairs, Loss) == (if Loss(p) then 1 else 0) + Count(pairs, Loss)
    ensures Count([p] + pairs, Tie) == (if Tie(p) then 1 else 0) + Count(pairs, Tie)
  {
    assert ([p] + pairs)[1..] == pairs;
  }

  lemma {:induction false} CountsNone(pairs: seq<Pair>, holds: Pair -> bool)
    ensures Count(pairs, holds) == 0 <==> forall p :: p in pairs ==> !holds(p)
  {
    if pairs != [] {
      CountsNone(pairs[1..], holds);
      assert pairs == [pairs[0]] + pairs[1..];
    }
  }

  lemma PairedIs(pairs: seq<Pair>)
    ensures var live, h := Live(pairs), Paired(pairs);
            && h.wins == Count(live, Win) && h.losses == Count(live, Loss) && h.ties == Count(live, Tie)
            && h.p == SignTestP(h.wins, h.losses)
            && h.n == h.wins + h.losses + h.ties && h.skipped == |pairs| - h.n
  {
    OutcomesCoverAll(Live(pairs));
  }

  /** Exchanging the arms exchanges wins and losses and changes nothing else, the p-value included, exactly
      when no pair is zero on one arm alone: such a pair is skipped one way round and counted the other. */
  lemma ExchangingArms(pairs: seq<Pair>)
    requires Tokens(pairs)
    ensures var h, s := Paired(pairs), Paired(Swapped(pairs));
            s == h.(wins := h.losses, losses := h.wins)
            <==> forall p :: p in pairs ==> (p.base == 0.0 <==> p.ccx == 0.0)
  {
    SwappedOutcomes(pairs);
    PairedIs(pairs);
    PairedIs(Swapped(pairs));
    CountsNone(pairs, BaseIsZero);
    CountsNone(pairs, CcxIsZero);
    var h := Paired(pairs);
    PValueIsAProbability(h.wins, h.losses);
    hide Paired, Live, Swapped, SignTestP;
    if forall p :: p in pairs ==> (p.base == 0.0 <==> p.ccx == 0.0) {
      assert forall p :: p in pairs ==> !BaseIsZero(p) && !CcxIsZero(p);
    } else {
      var p :| p in pairs && !(p.base == 0.0 <==> p.ccx == 0.0);
      assert BaseIsZero(p) || CcxIsZero(p);
    }
  }
}
