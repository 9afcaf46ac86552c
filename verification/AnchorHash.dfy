/** A line's four-character content hash. */
module AnchorHash {
  const ALPHABET := "0123456789abcdefghjkmnpqrstvwxyz"
  const LETTERS := "abcdefghjkmnpqrstvwxyz"
  const FOLD := 22 * 32 * 32 * 32

  /** The class [a-hjkmnp-tv-z] of the anchor grammar. */
  predicate IsLetter(c: char) {
    'a' <= c <= 'h' || c == 'j' || c == 'k' || c == 'm' || c == 'n' || 'p' <= c <= 't' || 'v' <= c <= 'z'
  }

  predicate IsSymbol(c: char) { '0' <= c <= '9' || IsLetter(c) }

  /** The hashes the anchor grammar accepts: a letter, then three more symbols. */
  predicate IsHash(h: string) {
    |h| == 4 && IsLetter(h[0]) && IsSymbol(h[1]) && IsSymbol(h[2]) && IsSymbol(h[3])
  }

  /** Of's encoding; the shifts and masks of its 32-bit value are quotients and remainders by 32. */
  function Encode(v: nat): string
    requires v < FOLD
  {
    [LETTERS[v / 32768], ALPHABET[v / 1024 % 32], ALPHABET[v / 32 % 32], ALPHABET[v % 32]]
  }

  /** A letter's place among the letters: i, l, o and u are left out. */
  function LetterRank(c: char): int {
    c as int - 'a' as int - (if c > 'i' then 1 else 0) - (if c > 'l' then 1 else 0)
      - (if c > 'o' then 1 else 0) - (if c > 'u' then 1 else 0)
  }

  function Rank(c: char): int {
    if '0' <= c <= '9' then c as int - '0' as int else 10 + LetterRank(c)
  }

  function Decode(h: string): int
    requires |h| == 4
  {
    LetterRank(h[0]) * 32768 + Rank(h[1]) * 1024 + Rank(h[2]) * 32 + Rank(h[3])
  }

  lemma LettersRank(k: nat)
    requires k < 22
    ensures IsLetter(LETTERS[k]) && LetterRank(LETTERS[k]) == k
  {
  }

  lemma SymbolsRank(k: nat)
    requires k < 32
    ensures IsSymbol(ALPHABET[k]) && Rank(ALPHABET[k]) == k
  {
  }

  lemma RankedLetter(c: char)
    requires IsLetter(c)
    ensures 0 <= LetterRank(c) < 22 && LETTERS[LetterRank(c)] == c
  {
  }

  lemma RankedSymbol(c: char)
    requires IsSymbol(c)
    ensures 0 <= Rank(c) < 32 && ALPHABET[Rank(c)] == c
  {
    if IsLetter(c) {
      RankedLetter(c);
    }
  }

  lemma Places(a: nat, b: nat, c: nat, d: nat)
    requires b < 32 && c < 32 && d < 32
    ensures var v := a * 32768 + b * 1024 + c * 32 + d;
      v / 32768 == a && v / 1024 % 32 == b && v / 32 % 32 == c && v % 32 == d
  {
    var v := a * 32768 + b * 1024 + c * 32 + d;
    assert v / 32 == a * 1024 + b * 32 + c;
    assert v / 1024 == a * 32 + b;
  }

  lemma Digits32(v: nat)
    ensures v == v / 32768 * 32768 + v / 1024 % 32 * 1024 + v / 32 % 32 * 32 + v % 32
  {
    var p := v / 32;
    var q := p / 32;
    assert v == p * 32 + v % 32 && p == q * 32 + p % 32 && q == q / 32 * 32 + q % 32;
    assert q == v / 1024 && q / 32 == v / 32768;
  }

  /** Every value encodes to a hash the grammar accepts, and can be read back. */
  lemma EncodeIsAHash(v: nat)
    requires v < FOLD
    ensures IsHash(Encode(v)) && Decode(Encode(v)) == v
  {
    LettersRank(v / 32768);
    SymbolsRank(v / 1024 % 32);
    SymbolsRank(v / 32 % 32);
    SymbolsRank(v % 32);
    Digits32(v);
    hide Rank, LetterRank, IsSymbol, IsLetter;
  }

  /** Every hash the grammar accepts encodes exactly one value. */
  lemma HashIsEncoded(h: string)
    requires IsHash(h)
    ensures 0 <= Decode(h) < FOLD && Encode(Decode(h)) == h
  {
    hide Rank, LetterRank, IsHash, Encode;
    HashIsRanked(h);
    Placed(h, LetterRank(h[0]), Rank(h[1]), Rank(h[2]), Rank(h[3]));
  }

  lemma HashIsRanked(h: string)
    requires IsHash(h)
    ensures |h| == 4 && 0 <= LetterRank(h[0]) < 22
    ensures 0 <= Rank(h[1]) < 32 && 0 <= Rank(h[2]) < 32 && 0 <= Rank(h[3]) < 32
    ensures h == [LETTERS[LetterRank(h[0])], ALPHABET[Rank(h[1])], ALPHABET[Rank(h[2])], ALPHABET[Rank(h[3])]]
  {
    RankedLetter(h[0]);
    RankedSymbol(h[1]);
    RankedSymbol(h[2]);
    RankedSymbol(h[3]);
    hide Rank, LetterRank, IsSymbol, IsLetter;
  }

  lemma Placed(h: string, a: nat, b: nat, c: nat, d: nat)
    requires |h| == 4 && a < 22 && b < 32 && c < 32 && d < 32
    requires h == [LETTERS[a], ALPHABET[b], ALPHABET[c], ALPHABET[d]]
    ensures var v := a * 32768 + b * 1024 + c * 32 + d; v < FOLD && Encode(v) == h
  {
    Places(a, b, c, d);
  }

  /** The encoding is a bijection from [0, 22 * 32^3) onto the hashes of the grammar. */
  lemma EncodingIsABijection(a: nat, b: nat)
    requires a < FOLD && b < FOLD
    ensures Encode(a) == Encode(b) <==> a == b
    ensures forall h :: IsHash(h) <==> exists v: nat :: v < FOLD && Encode(v) == h
  {
    EncodeIsAHash(a);
    EncodeIsAHash(b);
    forall h ensures IsHash(h) <==> exists v: nat :: v < FOLD && Encode(v) == h {
      if IsHash(h) {
        HashIsEncoded(h);
      } else {
        forall v: nat | v < FOLD ensures Encode(v) != h {
          EncodeIsAHash(v);
        }
      }
    }
  }

  lemma LettersAscend(c: char, d: char)
    requires IsLetter(c) && IsLetter(d) && c < d
    ensures LetterRank(c) < LetterRank(d)
  {
  }

  lemma SymbolsAscend(c: char, d: char)
    requires IsSymbol(c) && IsSymbol(d) && c < d
    ensures Rank(c) < Rank(d)
  {
    if IsLetter(c) && IsLetter(d) {
      LettersAscend(c, d);
    } else if IsLetter(d) {
      RankedLetter(d);
    }
  }

  /** Character by character, the first difference decides. */
  ghost predicate Before(g: string, h: string) {
    |g| == |h| && exists k :: 0 <= k < |g| && g[k] < h[k] && g[..k] == h[..k]
  }

  /** The encoding keeps order: with the bijection, that leaves one way to encode. */
  lemma EncodingAscends(v: nat, w: nat)
    requires v < w < FOLD
    ensures Before(Encode(v), Encode(w))
  {
    EncodeIsAHash(v);
    EncodeIsAHash(w);
    var g, h := Encode(v), Encode(w);
    HashIsRanked(g);
    HashIsRanked(h);
    if g[0] != h[0] {
      LettersDecide(g, h, v, w);
    } else if g[1] != h[1] {
      SymbolDecides(g, h, v, w, 1);
    } else if g[2] != h[2] {
      SymbolDecides(g, h, v, w, 2);
    } else {
      SymbolDecides(g, h, v, w, 3);
    }
  }

  lemma LettersDecide(g: string, h: string, v: nat, w: nat)
    requires IsHash(g) && IsHash(h) && g[0] != h[0] && Decode(g) == v < w == Decode(h)
    ensures Before(g, h)
  {
    hide Decode, IsSymbol, IsLetter;
    if h[0] < g[0] {
      LargerLetter(g, h);
      assert false;
    }
    assert g[..0] == h[..0];
  }

  lemma LargerLetter(g: string, h: string)
    requires IsHash(g) && IsHash(h) && h[0] < g[0]
    ensures Decode(g) > Decode(h)
  {
    HashIsRanked(g);
    HashIsRanked(h);
    LettersAscend(h[0], g[0]);
    hide Rank, LetterRank, IsSymbol, IsLetter, IsHash;
    TopPlace(LetterRank(g[0]), Rank(g[1]), Rank(g[2]), Rank(g[3]), LetterRank(h[0]), Rank(h[1]), Rank(h[2]),
             Rank(h[3]));
  }

  lemma TopPlace(a: nat, b: nat, c: nat, d: nat, a': nat, b': nat, c': nat, d': nat)
    requires b < 32 && c < 32 && d < 32 && b' < 32 && c' < 32 && d' < 32 && a > a'
    ensures a * 32768 + b * 1024 + c * 32 + d > a' * 32768 + b' * 1024 + c' * 32 + d'
  {
  }

  lemma SymbolDecides(g: string, h: string, v: nat, w: nat, k: nat)
    requires IsHash(g) && IsHash(h) && 0 < k < 4 && Decode(g) == v < w == Decode(h)
    requires g[0] == h[0] && (k > 1 ==> g[1] == h[1]) && (k > 2 ==> g[2] == h[2])
    requires g[k] != h[k] || k == 3
    ensures Before(g, h)
  {
    hide Rank, LetterRank, IsSymbol, Decode, Before;
    DifferSomewhere(g, h);
    if h[k] < g[k] {
      LargerDigit(g, h, k);
      assert false;
    }
    assert g[..k] == h[..k];
    DiffersAt(g, h, k);
  }

  lemma DifferSomewhere(g: string, h: string)
    requires |g| == 4 == |h| && g != h
    ensures g[0] != h[0] || g[1] != h[1] || g[2] != h[2] || g[3] != h[3]
  {
  }

  lemma DiffersAt(g: string, h: string, k: nat)
    requires k < |g| == |h| && g[k] < h[k] && g[..k] == h[..k]
    ensures Before(g, h)
  {
  }

  lemma LargerDigit(g: string, h: string, k: nat)
    requires IsHash(g) && IsHash(h) && 0 < k < 4 && h[k] < g[k]
    requires g[0] == h[0] && (k > 1 ==> g[1] == h[1]) && (k > 2 ==> g[2] == h[2])
    ensures Decode(g) > Decode(h)
  {
    HashIsRanked(g);
    HashIsRanked(h);
    SymbolsAscend(h[k], g[k]);
    hide Rank, LetterRank, IsSymbol, IsHash;
    HigherPlaces(LetterRank(g[0]), Rank(g[1]), Rank(g[2]), Rank(g[3]), LetterRank(h[0]), Rank(h[1]), Rank(h[2]),
                 Rank(h[3]), k);
  }

  /** Of two values in base 32 that agree up to a place, the one with the larger digit there is larger. */
  lemma HigherPlaces(a: nat, b: nat, c: nat, d: nat, a': nat, b': nat, c': nat, d': nat, k: nat)
    requires b < 32 && c < 32 && d < 32 && b' < 32 && c' < 32 && d' < 32 && 0 < k < 4
    requires a == a' && (k > 1 ==> b == b') && (k > 2 ==> c == c')
    requires if k == 1 then b > b' else if k == 2 then c > c' else d > d'
    ensures a * 32768 + b * 1024 + c * 32 + d > a' * 32768 + b' * 1024 + c' * 32 + d'
  {
  }
}
