/** The longest substring without a repeated character: a window whose characters are kept as bits. */
module Substring {

  /** A 7-bit character. */
  type Ascii = c: nat | c < 128 witness 0

  // ---------- the bits ----------

  function Bit(k: nat): bv32
    requires k < 32
  {
    (1 as bv32) << (k as bv6)
  }

  lemma BackFromBits(k: nat)
    requires k < 32
    ensures ((k as bv6) as nat) == k
  {
  }

  lemma BitFits(k: nat)
    requires k < 32
    ensures (k as bv6) < 32
  {
  }

  lemma ShiftsDiffer(a: bv6, b: bv6)
    requires a < 32 && b < 32
    ensures ((1 as bv32) << a) != 0
    ensures a != b ==> ((1 as bv32) << a) & ((1 as bv32) << b) == 0
  {
  }

  lemma BitsDiffer(j: nat, k: nat)
    requires j < 32 && k < 32
    ensures Bit(j) != 0
    ensures j != k ==> Bit(j) & Bit(k) == 0
  {
    BackFromBits(j);
    BackFromBits(k);
    BitFits(j);
    BitFits(k);
    ShiftsDiffer(j as bv6, k as bv6);
  }

  function WithBit(x: bv32, k: nat): bv32
    requires k < 32
  {
    x | Bit(k)
  }

  function WithoutBit(x: bv32, k: nat): bv32
    requires k < 32
  {
    x & !Bit(k)
  }

  predicate HasBit(x: bv32, k: nat)
    requires k < 32
  {
    x & Bit(k) != 0
  }

  lemma MaskSame(x: bv32, p: bv32)
    ensures (x | p) & p == p && (x & !p) & p == 0
  {
  }

  lemma SetOther(x: bv32, p: bv32, q: bv32)
    requires p & q == 0
    ensures (x | p) & q == x & q
  {
    assert (x | p) & q == (x & q) | (p & q);
  }

  lemma ClearOther(x: bv32, p: bv32, q: bv32)
    requires p & q == 0
    ensures (x & !p) & q == x & q
  {
    assert q & !p == q;
  }

  lemma SameBit(x: bv32, k: nat)
    requires k < 32
    ensures HasBit(WithBit(x, k), k) && !HasBit(WithoutBit(x, k), k)
  {
    BitsDiffer(k, k);
    hide Bit;
    MaskSame(x, Bit(k));
  }

  lemma OtherBitUp(x: bv32, j: nat, k: nat)
    requires j < 32 && k < 32 && j != k
    ensures HasBit(WithBit(x, j), k) == HasBit(x, k)
  {
    BitsDiffer(j, k);
    hide Bit;
    SetOther(x, Bit(j), Bit(k));
  }

  lemma OtherBitDown(x: bv32, j: nat, k: nat)
    requires j < 32 && k < 32 && j != k
    ensures HasBit(WithoutBit(x, j), k) == HasBit(x, k)
  {
    BitsDiffer(j, k);
    hide Bit;
    ClearOther(x, Bit(j), Bit(k));
  }

  /** Whether a character's bit is up in the four words. */
  predicate Has(words: seq<bv32>, c: Ascii)
    requires |words| == 4
  {
    HasBit(words[c / 32], c % 32)
  }

  function Up(words: seq<bv32>, c: Ascii): (up: seq<bv32>)
    requires |words| == 4
    ensures |up| == 4
  {
    words[c / 32 := WithBit(words[c / 32], c % 32)]
  }

  function Down(words: seq<bv32>, c: Ascii): (down: seq<bv32>)
    requires |words| == 4
    ensures |down| == 4
  {
    words[c / 32 := WithoutBit(words[c / 32], c % 32)]
  }

  lemma UpAndDown(words: seq<bv32>, c: Ascii, d: Ascii)
    requires |words| == 4
    ensures Has(Up(words, c), d) <==> d == c || Has(words, d)
    ensures Has(Down(words, c), d) <==> d != c && Has(words, d)
  {
    hide WithBit, WithoutBit, HasBit;
    if c == d {
      SameBit(words[c / 32], c % 32);
    } else if c / 32 == d / 32 {
      OtherBitUp(words[c / 32], c % 32, d % 32);
      OtherBitDown(words[c / 32], c % 32, d % 32);
    }
  }

  // ---------- windows ----------

  /** The characters from a up to b are all different. */
  ghost predicate RepeatFree(s: seq<Ascii>, a: nat, b: nat)
    requires b <= |s|
  {
    forall i, j :: a <= i < j < b ==> s[i] != s[j]
  }

  /** Some character from a up to b is c. */
  ghost predicate Occurs(s: seq<Ascii>, a: nat, b: nat, c: Ascii)
    requires b <= |s|
  {
    exists i :: a <= i < b && s[i] == c
  }

  /** The longest repeat-free part of the first n characters has this length. */
  ghost predicate IsLongest(s: seq<Ascii>, n: nat, len: nat)
    requires n <= |s|
  {
    && (exists a: nat, b: nat :: a <= b <= n && RepeatFree(s, a, b) && b - a == len)
    && forall a: nat, b: nat :: a <= b <= n && RepeatFree(s, a, b) ==> b - a <= len
  }

  /** The bits are the characters of the window. */
  ghost predicate Shows(words: seq<bv32>, s: seq<Ascii>, a: nat, b: nat)
    requires |words| == 4 && b <= |s|
  {
    forall c: Ascii :: Has(words, c) <==> Occurs(s, a, b, c)
  }

  /** The longest repeat-free window that ends at b begins at a. */
  ghost predicate Leftmost(s: seq<Ascii>, a: nat, b: nat)
    requires b <= |s|
  {
    a <= b && RepeatFree(s, a, b) && (a > 0 ==> !RepeatFree(s, a - 1, b))
  }

  lemma Shorter(s: seq<Ascii>, a: nat, x: nat, b: nat)
    requires a <= x && b <= |s|
    ensures RepeatFree(s, a, b) ==> RepeatFree(s, x, b)
  {
  }

  lemma LeftmostIsLongest(s: seq<Ascii>, a: nat, b: nat, x: nat)
    requires b <= |s| && Leftmost(s, a, b)
    ensures RepeatFree(s, x, b) ==> a <= x
  {
    if x < a {
      Shorter(s, x, a - 1, b);
    }
  }

  /** One character more: the window moves past the earlier occurrence of it, if there is one. */
  lemma WindowMoves(s: seq<Ascii>, a: nat, b: nat, j: nat)
    requires b < |s| && Leftmost(s, a, b) && a <= j < b && s[j] == s[b]
    ensures Leftmost(s, j + 1, b + 1)
  {
    assert !RepeatFree(s, j, b + 1);
  }

  lemma StillFree(s: seq<Ascii>, a: nat, b: nat)
    requires b < |s|
    ensures RepeatFree(s, a, b + 1) ==> RepeatFree(s, a, b)
  {
  }

  lemma WindowGrows(s: seq<Ascii>, a: nat, b: nat)
    requires b < |s| && Leftmost(s, a, b) && !Occurs(s, a, b, s[b])
    ensures Leftmost(s, a, b + 1)
  {
    if a > 0 {
      StillFree(s, a - 1, b);
    }
  }

  lemma LongestGrows(s: seq<Ascii>, n: nat, len: nat, a: nat)
    requires n < |s| && IsLongest(s, n, len) && Leftmost(s, a, n + 1)
    ensures IsLongest(s, n + 1, if len < n + 1 - a then n + 1 - a else len)
  {
    var best := if len < n + 1 - a then n + 1 - a else len;
    forall x: nat, y: nat | x <= y <= n + 1 && RepeatFree(s, x, y) ensures y - x <= best {
      if y == n + 1 {
        LeftmostIsLongest(s, a, n + 1, x);
      }
    }
    if len < n + 1 - a {
      assert RepeatFree(s, a, a + best);
    }
  }

  /** Once the best is at least the window and all that is left, nothing later beats it. */
  lemma NothingLaterBeats(s: seq<Ascii>, n: nat, best: nat, a: nat)
    requires n <= |s| && IsLongest(s, n, best) && Leftmost(s, a, n) && best >= |s| - a
    ensures IsLongest(s, |s|, best)
  {
    forall x: nat, y: nat | x <= y <= |s| && RepeatFree(s, x, y) ensures y - x <= best {
      if y > n && x <= n {
        assert RepeatFree(s, x, n);
        LeftmostIsLongest(s, a, n, x);
      }
    }
  }

  // ---------- the search ----------

  lemma ShowsGrows(words: seq<bv32>, s: seq<Ascii>, a: nat, b: nat)
    requires |words| == 4 && a <= b < |s| && Shows(words, s, a, b)
    ensures Shows(Up(words, s[b]), s, a, b + 1)
  {
    hide Up, Has;
    forall c: Ascii ensures Has(Up(words, s[b]), c) <==> Occurs(s, a, b + 1, c) {
      UpAndDown(words, s[b], c);
      OccursGrows(s, a, b, c);
    }
  }

  lemma OccursGrows(s: seq<Ascii>, a: nat, b: nat, c: Ascii)
    requires a <= b < |s|
    ensures Occurs(s, a, b + 1, c) <==> s[b] == c || Occurs(s, a, b, c)
  {
    if s[b] == c {
      assert Occurs(s, a, b + 1, c);
    }
  }

  lemma ShowsShrinks(words: seq<bv32>, s: seq<Ascii>, a: nat, b: nat)
    requires |words| == 4 && a < b <= |s| && RepeatFree(s, a, b) && Shows(words, s, a, b)
    ensures Shows(Down(words, s[a]), s, a + 1, b)
  {
    hide Down, Has;
    forall c: Ascii ensures Has(Down(words, s[a]), c) <==> Occurs(s, a + 1, b, c) {
      UpAndDown(words, s[a], c);
      OccursShrinks(s, a, b, c);
    }
  }

  lemma OccursShrinks(s: seq<Ascii>, a: nat, b: nat, c: Ascii)
    requires a < b <= |s| && RepeatFree(s, a, b)
    ensures Occurs(s, a + 1, b, c) <==> s[a] != c && Occurs(s, a, b, c)
  {
    if i :| a <= i < b && s[i] == c && s[a] != c {
      assert i != a;
    }
  }

  /** With the repeated character at the front, moving the front past it changes no bit. */
  lemma ShowsSlides(words: seq<bv32>, s: seq<Ascii>, a: nat, b: nat)
    requires |words| == 4 && a < b < |s| && s[a] == s[b] && RepeatFree(s, a, b) && Shows(words, s, a, b)
    ensures Shows(words, s, a + 1, b + 1)
  {
    hide Has;
    forall c: Ascii ensures Has(words, c) <==> Occurs(s, a + 1, b + 1, c) {
      OccursShrinks(s, a, b, c);
      OccursGrows(s, a + 1, b, c);
    }
  }

  method TestBit(szBits: array<bv32>, c: Ascii) returns (up: bool)
    requires szBits.Length == 4
    ensures up <==> Has(szBits[..], c)
  {
    hide Bit;
    var index, numbits := c / 32, Bit(c % 32);
    up := szBits[index] & numbits != 0;
  }

  method RaiseBit(szBits: array<bv32>, c: Ascii)
    requires szBits.Length == 4
    modifies szBits
    ensures szBits[..] == Up(old(szBits[..]), c)
  {
    hide Bit;
    var index, numbits := c / 32, Bit(c % 32);
    szBits[index] := szBits[index] | numbits;
  }

  method LowerBit(szBits: array<bv32>, c: Ascii)
    requires szBits.Length == 4
    modifies szBits
    ensures szBits[..] == Down(old(szBits[..]), c)
  {
    hide Bit;
    szBits[c / 32] := szBits[c / 32] & !Bit(c % 32);
  }

  /** The inner loop: characters leave the window from its front up to and including the repeated one. */
  method DropThrough(words: array<bv32>, s: seq<Ascii>, pos: nat, i: nat) returns (pos': nat)
    requires words.Length == 4 && pos < i < |s| && RepeatFree(s, pos, i) && Occurs(s, pos, i, s[i])
    requires Shows(words[..], s, pos, i)
    modifies words
    ensures pos < pos' <= i && s[pos' - 1] == s[i] && RepeatFree(s, pos' - 1, i)
    ensures Shows(words[..], s, pos', i)
  {
    hide Down, Shows;
    ghost var k :| pos <= k < i && s[k] == s[i];
    var j := pos;
    while j < |s|
      invariant pos <= j <= k && RepeatFree(s, j, i) && Shows(words[..], s, j, i)
    {
      ShowsShrinks(words[..], s, j, i);
      LowerBit(words, s[j]);
      if s[j] == s[i] {
        return j + 1;
      }
      j := j + 1;
    }
  }

  /** The length of the longest substring without a repeated character. */
  method LengthOfLongestSubstring(s: seq<Ascii>) returns (nMaxLen: nat)
    ensures IsLongest(s, |s|, nMaxLen)
  {
    var szBits := new bv32[4](_ => 0);
    var len: nat, pos: nat := 0, 0;
    nMaxLen := 0;
    NothingYet(szBits[..], s);
    var i := 0;
    while i < |s|
      invariant i <= |s| && pos <= i && len == i - pos
      invariant Leftmost(s, pos, i) && IsLongest(s, i, nMaxLen)
      invariant Shows(szBits[..], s, pos, i)
    {
      pos, len := NextWindow(szBits, s, pos, i, len);
      LongestGrows(s, i, nMaxLen, pos);
      if nMaxLen < len {
        nMaxLen := len;
      }
      if nMaxLen >= |s| - i + len {
        NothingLaterBeats(s, i + 1, nMaxLen, pos);
        return;
      }
      i := i + 1;
    }
  }

  lemma NothingYet(words: seq<bv32>, s: seq<Ascii>)
    requires words == [0, 0, 0, 0]
    ensures Shows(words, s, 0, 0) && Leftmost(s, 0, 0) && IsLongest(s, 0, 0)
  {
    forall c: Ascii ensures !Has(words, c) {
      assert words[c / 32] == 0;
    }
    assert RepeatFree(s, 0, 0);
  }

  /** One character taken into the window. */
  method NextWindow(szBits: array<bv32>, s: seq<Ascii>, pos: nat, i: nat, len: nat) returns (pos': nat, len': nat)
    requires szBits.Length == 4 && pos <= i < |s| && len == i - pos
    requires Leftmost(s, pos, i) && Shows(szBits[..], s, pos, i)
    modifies szBits
    ensures pos' <= i + 1 && len' == i + 1 - pos' && Leftmost(s, pos', i + 1) && Shows(szBits[..], s, pos', i + 1)
  {
    hide Bit, Down, Shows, Has, Up, Leftmost, Occurs, RepeatFree;
    pos', len' := pos, len;
    PresentIffOccurs(szBits[..], s, pos, i);
    var present := TestBit(szBits, s[i]);
    if present {
      if s[i] != s[pos] {
        LeftmostFree(s, pos, i);
        pos' := DropThrough(szBits, s, pos, i);
        len' := len - (pos' - pos);
        WindowMoves(s, pos, i, pos' - 1);
        GoneAfterDrop(szBits[..], s, pos', i);
        ShowsGrows(szBits[..], s, pos', i);
      } else {
        LeftmostFree(s, pos, i);
        ShowsSlides(szBits[..], s, pos, i);
        WindowMoves(s, pos, i, pos);
        ShowsAgain(szBits[..], s, pos + 1, i + 1, s[i]);
        pos' := pos + 1;
      }
    } else {
      WindowGrows(s, pos, i);
      ShowsGrows(szBits[..], s, pos, i);
    }
    present := TestBit(szBits, s[i]);
    if !present {
      len' := len' + 1;
    }
    RaiseBit(szBits, s[i]);
  }

  lemma LeftmostFree(s: seq<Ascii>, a: nat, b: nat)
    requires b < |s| && Leftmost(s, a, b)
    ensures RepeatFree(s, a, b) && (Occurs(s, a, b, s[b]) ==> a < b)
  {
  }

  lemma PresentIffOccurs(words: seq<bv32>, s: seq<Ascii>, a: nat, b: nat)
    requires |words| == 4 && b < |s| && Shows(words, s, a, b)
    ensures Has(words, s[b]) <==> Occurs(s, a, b, s[b])
  {
  }

  lemma GoneAfterDrop(words: seq<bv32>, s: seq<Ascii>, a: nat, b: nat)
    requires |words| == 4 && 0 < a <= b < |s| && Shows(words, s, a, b) && RepeatFree(s, a - 1, b) && s[a - 1] == s[b]
    ensures !Has(words, s[b])
  {
    PresentIffOccurs(words, s, a, b);
  }

  /** Setting a bit that is up changes nothing. */
  lemma ShowsAgain(words: seq<bv32>, s: seq<Ascii>, a: nat, b: nat, c: Ascii)
    requires |words| == 4 && b <= |s| && Shows(words, s, a, b) && Has(words, c)
    ensures Shows(Up(words, c), s, a, b)
  {
    hide Has, Up;
    forall d: Ascii ensures Has(Up(words, c), d) <==> Occurs(s, a, b, d) {
      UpAndDown(words, c, d);
    }
  }
}
