/** The digits of a page number, one per trie level (ncrit_trie::level_idx). */
module Radix {
  import opened DivMod
  import opened Platform

  type StrideBits = n: nat | 1 <= n <= 16 witness 9
  type LevelCount = n: nat | 1 <= n witness 4

  /** The template parameters, left without a value: every result holds for all of them. */
  const STRIDE: StrideBits
  const LEVELS: LevelCount

  const FANOUT: nat := Pow2(STRIDE)

  /** Number of bits in j digits: j times the stride. */
  function Bits(j: nat): nat {
    if j == 0 then 0 else Bits(j - 1) + STRIDE
  }

  /** Number of distinct page keys the trie can tell apart. */
  const KEYS: nat := Pow2(Bits(LEVELS))

  /** Index used at `depth`; depth 0 takes the most significant digit. */
  function LevelIdx(page: nat, depth: nat): nat
    requires depth < LEVELS
  {
    Rem(Quot(page, Pow2(Bits(LEVELS - 1 - depth))), FANOUT)
  }

  lemma LevelIdxBound(page: nat, depth: nat)
    requires depth < LEVELS
    ensures LevelIdx(page, depth) < FANOUT
  {
    QuotRem(Quot(page, Pow2(Bits(LEVELS - 1 - depth))), FANOUT);
  }

  /** A position in the trie: the digits taken from the root, the last one outermost. */
  datatype Path = Top | Step(front: Path, digit: nat) {
    function Depth(): nat {
      if Top? then 0 else front.Depth() + 1
    }
  }

  /** The position `depth` levels down the path of a page number. */
  function PathOf(page: nat, depth: nat): (p: Path)
    requires depth <= LEVELS
    ensures p.Depth() == depth
  {
    if depth == 0 then Top else Step(PathOf(page, depth - 1), LevelIdx(page, depth - 1))
  }

  /** The part of a page number that the trie sees. */
  function Key(page: nat): (k: nat)
    ensures k < KEYS
  {
    QuotRem(page, KEYS);
    Rem(page, KEYS)
  }

  lemma KeyOfSmall(page: nat)
    requires page < KEYS
    ensures Key(page) == page
  {
    Unique(page, KEYS, 0, page);
  }

  /** The number formed by the last j digits. */
  function LowDigits(page: nat, j: nat): nat {
    Rem(page, Pow2(Bits(j)))
  }

  /** Appending one more digit on the left. */
  lemma LowDigitsStep(page: nat, j: nat)
    requires j < LEVELS
    ensures LowDigits(page, j + 1) == LevelIdx(page, LEVELS - 1 - j) * Pow2(Bits(j)) + LowDigits(page, j)
  {
    Pow2Adds(Bits(j), STRIDE);
    RemSplits(page, Pow2(Bits(j)), FANOUT);
  }

  /** Two pages agree on their last j digits exactly when their low parts are equal. */
  lemma {:induction false} LowDigitsAgree(p: nat, q: nat, j: nat)
    requires j <= LEVELS
    ensures LowDigits(p, j) == LowDigits(q, j)
       <==> forall d :: LEVELS - j <= d < LEVELS ==> LevelIdx(p, d) == LevelIdx(q, d)
  {
    if j == 0 {
      QuotRem(p, 1);
      QuotRem(q, 1);
    } else {
      var w := Pow2(Bits(j - 1));
      var top := LEVELS - j;
      LowDigitsAgree(p, q, j - 1);
      LowDigitsStep(p, j - 1);
      LowDigitsStep(q, j - 1);
      if LowDigits(p, j) == LowDigits(q, j) {
        QuotRem(p, w);
        QuotRem(q, w);
        Unique(LowDigits(p, j), w, LevelIdx(p, top), LowDigits(p, j - 1));
        Unique(LowDigits(p, j), w, LevelIdx(q, top), LowDigits(q, j - 1));
      }
    }
  }

  lemma {:induction false} PathsAgree(p: nat, q: nat, depth: nat)
    requires depth <= LEVELS
    ensures PathOf(p, depth) == PathOf(q, depth)
       <==> forall d :: 0 <= d < depth ==> LevelIdx(p, d) == LevelIdx(q, d)
  {
    if depth > 0 {
      PathsAgree(p, q, depth - 1);
    }
  }

  /** Page numbers take the same path exactly when they are equal modulo 2^(Stride * Levels). */
  lemma PathIdentifiesKey(p: nat, q: nat)
    ensures PathOf(p, LEVELS) == PathOf(q, LEVELS) <==> Key(p) == Key(q)
  {
    LowDigitsAgree(p, q, LEVELS);
    PathsAgree(p, q, LEVELS);
  }
}
