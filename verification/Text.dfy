/** The string operations the service relies on: stripping, clipping, searching and inserting. */
module Text {
  import opened Wrappers

  // ---- Slices counted from the end ----

  /** The last `n` characters, or everything when there are fewer. */
  function Last(s: string, n: nat): string {
    if n <= |s| then s[|s| - n..] else s
  }

  /** Python's `s[-n:]`: asking for the last zero characters yields the whole string. */
  function FromEnd(s: string, n: nat): string {
    if n == 0 then s else Last(s, n)
  }

  // ---- Whitespace ----

  /** The characters removed by `str.strip`. */
  predicate IsSpace(c: char) {
    || '\U{09}' <= c <= '\U{0d}'
    || '\U{1c}' <= c <= '\U{20}'
    || c == '\U{85}' || c == '\U{a0}' || c == '\U{1680}'
    || '\U{2000}' <= c <= '\U{200a}' || c == '\U{2028}' || c == '\U{2029}'
    || c == '\U{202f}' || c == '\U{205f}' || c == '\U{3000}'
  }

  /** The 29 whitespace characters, one by one. */
  const SPACES := "\U{09}\U{0a}\U{0b}\U{0c}\U{0d}\U{1c}\U{1d}\U{1e}\U{1f}\U{20}\U{85}\U{a0}\U{1680}"
                  + "\U{2000}\U{2001}\U{2002}\U{2003}\U{2004}\U{2005}\U{2006}\U{2007}\U{2008}\U{2009}\U{200a}"
                  + "\U{2028}\U{2029}\U{202f}\U{205f}\U{3000}"

  lemma SpacesListed(c: char)
    ensures IsSpace(c) <==> c in SPACES
  {
    var a := "\U{09}\U{0a}\U{0b}\U{0c}\U{0d}\U{1c}\U{1d}\U{1e}\U{1f}\U{20}\U{85}\U{a0}\U{1680}";
    var b := "\U{2000}\U{2001}\U{2002}\U{2003}\U{2004}\U{2005}\U{2006}\U{2007}\U{2008}\U{2009}\U{200a}";
    var d := "\U{2028}\U{2029}\U{202f}\U{205f}\U{3000}";
    assert SPACES == a + b + d;
    assert c in SPACES <==> c in a || c in b || c in d;
    assert c in a <==> || '\U{09}' <= c <= '\U{0d}' || '\U{1c}' <= c <= '\U{20}'
                       || c == '\U{85}' || c == '\U{a0}' || c == '\U{1680}';
    assert c in b <==> '\U{2000}' <= c <= '\U{200a}';
  }

  function StripLeft(s: string): (r: string)
    ensures r == [] || !IsSpace(r[0])
    ensures s == [] || !IsSpace(s[0]) ==> r == s
  {
    if s != [] && IsSpace(s[0]) then StripLeft(s[1..]) else s
  }

  function StripRight(s: string): (r: string)
    ensures r == [] || !IsSpace(r[|r| - 1])
    ensures r <= s
    ensures s == [] || !IsSpace(s[|s| - 1]) ==> r == s
  {
    if s != [] && IsSpace(s[|s| - 1]) then StripRight(s[..|s| - 1]) else s
  }

  function Strip(s: string): string {
    StripRight(StripLeft(s))
  }

  /** A text that neither begins nor ends with whitespace; the empty text does not qualify. */
  predicate Trimmed(s: string) {
    s != [] && !IsSpace(s[0]) && !IsSpace(s[|s| - 1])
  }

  /** What `strip` leaves over is trimmed, so `s.strip() or x` is trimmed whenever `x` is. */
  lemma StripTrims(s: string)
    ensures Strip(s) == [] || Trimmed(Strip(s))
    ensures Trimmed(s) ==> Strip(s) == s
  {
    var left := StripLeft(s);
    var both := StripRight(left);
    if both != [] {
      assert both[0] == left[0];
    }
  }

  predicate Blank(s: string) {
    forall c | c in s :: IsSpace(c)
  }

  lemma {:induction false} StripLeftDrops(s: string) returns (a: string)
    ensures s == a + StripLeft(s) && Blank(a)
  {
    if s != [] && IsSpace(s[0]) {
      a := StripLeftDrops(s[1..]);
      a := [s[0]] + a;
      assert s == [s[0]] + s[1..];
    } else {
      a := [];
    }
  }

  lemma {:induction false} StripRightDrops(s: string) returns (b: string)
    ensures s == StripRight(s) + b && Blank(b)
  {
    if s != [] && IsSpace(s[|s| - 1]) {
      b := StripRightDrops(s[..|s| - 1]);
      b := b + [s[|s| - 1]];
      assert s == s[..|s| - 1] + [s[|s| - 1]];
    } else {
      b := [];
    }
  }

  lemma BlankParts(a: string, middle: string, b: string)
    requires Blank(a) && Blank(b) && (middle == [] || Trimmed(middle))
    ensures middle == [] <==> Blank(a + middle + b)
  {
    hide IsSpace;
    if middle != [] {
      assert (a + middle + b)[|a|] == middle[0];
    }
  }

  /** Stripping removes whitespace at the two ends and nothing else, and leaves nothing exactly of a blank text. */
  lemma StripDropsOnlySpace(s: string) returns (a: string, b: string)
    ensures s == a + Strip(s) + b && Blank(a) && Blank(b)
    ensures Strip(s) == [] <==> Blank(s)
  {
    a := StripLeftDrops(s);
    b := StripRightDrops(StripLeft(s));
    StripTrims(s);
    hide StripLeft, StripRight, Blank, Trimmed;
    BlankParts(a, Strip(s), b);
    assert s == a + Strip(s) + b;
  }

  /** A text as the log shows it: without the whitespace around it, and a stand-in for a blank one. */
  ghost predicate Shows(shown: string, text: string, fallback: string) {
    if Blank(text) then shown == fallback
    else Trimmed(shown) && exists a, b :: text == a + shown + b && Blank(a) && Blank(b)
  }

  function StrippedOr(s: string, fallback: string): string {
    if Strip(s) == [] then fallback else Strip(s)
  }

  lemma StrippedOrShows(text: string, fallback: string)
    ensures Shows(StrippedOr(text, fallback), text, fallback)
  {
    var a, b := StripDropsOnlySpace(text);
    StripTrims(text);
  }

  /** A number in decimal digits. */
  function Decimal(n: nat): string {
    var digit := [('0' as int + n % 10) as char];
    if n < 10 then digit else Decimal(n / 10) + digit
  }

  function DigitValue(c: char): int { c as int - '0' as int }

  /** The number a text of decimal digits stands for. */
  function NumberOf(digits: string): int {
    if digits == [] then 0 else 10 * NumberOf(digits[..|digits| - 1]) + DigitValue(digits[|digits| - 1])
  }

  /** The decimal text of a number is made of digits, has no leading zero unless it is the digit zero, and reads as the
      number. */
  lemma {:induction false} DecimalReads(n: nat)
    ensures Decimal(n) != [] && (forall c | c in Decimal(n) :: '0' <= c <= '9')
    ensures Decimal(n)[0] == '0' ==> n == 0
    ensures NumberOf(Decimal(n)) == n
  {
    var last := [('0' as int + n % 10) as char];
    if n < 10 {
      assert Decimal(n) == last && last[..0] == [];
    } else {
      DecimalReads(n / 10);
      assert Decimal(n)[..|Decimal(n)| - 1] == Decimal(n / 10);
    }
  }

  // ---- Clipping ----

  const ELLIPSIS := "\U{2026}"
  const CLIP_TAIL_PREFIX := "\U{2026} earlier learning history omitted \U{2026}\n"

  /** Keeps the head of an over-long text and ends it with an ellipsis. */
  function Clip(text: string, limit: int): string {
    if |text| <= limit then text else text[..Max(0, limit - 1)] + ELLIPSIS
  }

  /** Keeps the tail of an over-long text behind a fixed notice. */
  function ClipTail(text: string, limit: int): string {
    if |text| <= limit then text
    else CLIP_TAIL_PREFIX + FromEnd(text, Max(0, limit - |CLIP_TAIL_PREFIX|))
  }

  /** A text cut to a limit: the whole of it, or as much of its head as leaves room for an ellipsis. */
  predicate CutTo(full: string, text: string, limit: int) {
    if |full| <= limit then text == full
    else 0 < |text| == limit && text[limit - 1] == '\U{2026}' && text[..limit - 1] <= full
  }

  lemma ClipCuts(full: string, limit: int)
    requires limit >= 1
    ensures CutTo(full, Clip(full, limit), limit)
  {
  }

  /** A text cut to its end: the whole of it, or the notice and as much of its end as fills the limit. */
  lemma ClipTailKeepsEnd(text: string, limit: int)
    requires limit > |CLIP_TAIL_PREFIX|
    ensures |text| <= limit ==> ClipTail(text, limit) == text
    ensures |text| > limit ==>
              var kept := limit - |CLIP_TAIL_PREFIX|;
              ClipTail(text, limit) == CLIP_TAIL_PREFIX + text[|text| - kept..]
  {
  }

  /** `Clip` meets its limit unless it was asked to squeeze text into no room at all. */
  lemma ClipMeetsLimit(text: string, limit: int)
    ensures |Clip(text, limit)| <= limit <==> limit >= 1 || |text| <= limit
  {
  }

  /** `ClipTail` meets its limit exactly when nothing is cut or the notice leaves room for some text:
      below that, the slice bound is zero and the slice returns the whole text. */
  lemma ClipTailMeetsLimit(text: string, limit: int)
    ensures |ClipTail(text, limit)| <= limit <==> |text| <= limit || limit > |CLIP_TAIL_PREFIX|
  {
  }
}

/** Substring search, insertion, and what an insertion does to the substrings of a text. */
module Substrings {
  import opened Wrappers

  predicate OccursAt(text: string, pattern: string, i: int) {
    && 0 <= i <= |text| - |pattern|
    && forall k | 0 <= k < |pattern| :: text[i + k] == pattern[k]
  }

  /** Python's `pattern in text`. */
  predicate Contains(text: string, pattern: string) {
    exists i | 0 <= i <= |text| :: OccursAt(text, pattern, i)
  }

  /** The first occurrence at or after `from`. */
  function Find(text: string, pattern: string, from: nat): (r: Option<nat>)
    requires from <= |text|
    ensures r.Some? ==> from <= r.value && OccursAt(text, pattern, r.value)
    ensures forall i | from <= i < (if r.Some? then r.value else |text| + 1) :: !OccursAt(text, pattern, i)
    decreases |text| - from
  {
    if OccursAt(text, pattern, from) then Some(from)
    else if from == |text| then None
    else Find(text, pattern, from + 1)
  }

  function Insert(text: string, at: nat, piece: string): string
    requires at <= |text|
  {
    text[..at] + piece + text[at..]
  }

  function Delete(text: string, at: nat, count: nat): string
    requires at + count <= |text|
  {
    text[..at] + text[at + count..]
  }

  lemma DeleteUndoesInsert(text: string, at: nat, piece: string)
    requires at <= |text|
    ensures Delete(Insert(text, at, piece), at, |piece|) == text
  {
  }

  lemma MiddleOccurs(before: string, pattern: string, after: string)
    ensures Contains(before + pattern + after, pattern)
  {
    assert OccursAt(before + pattern + after, pattern, |before|);
  }

  /** An occurrence covers only characters of its pattern. */
  lemma CoveredCharacter(text: string, pattern: string, i: int, q: int)
    requires OccursAt(text, pattern, i)
    ensures i <= q < i + |pattern| ==> text[q] in pattern
  {
    if i <= q < i + |pattern| {
      assert text[i + (q - i)] == pattern[q - i];
    }
  }

  /** An insertion in front of a character foreign to a pattern splits no occurrence of it. */
  lemma InsertKeepsPattern(text: string, at: nat, piece: string, pattern: string)
    requires at <= |text|
    requires at == |text| || text[at] !in pattern
    requires Contains(text, pattern)
    ensures Contains(Insert(text, at, piece), pattern)
  {
    var i :| 0 <= i <= |text| && OccursAt(text, pattern, i);
    var longer := Insert(text, at, piece);
    CoveredCharacter(text, pattern, i, at);
    if i + |pattern| <= at {
      assert OccursAt(longer, pattern, i);
    } else {
      forall k | 0 <= k < |pattern| ensures longer[i + |piece| + k] == pattern[k] {
        assert text[i + k] == pattern[k];
      }
      assert OccursAt(longer, pattern, i + |piece|);
    }
  }

  /** What is inserted is found, and so is every pattern inside it. */
  lemma InsertBringsPattern(text: string, at: nat, piece: string, pattern: string)
    requires at <= |text|
    requires Contains(piece, pattern)
    ensures Contains(Insert(text, at, piece), pattern)
  {
    var i :| 0 <= i <= |piece| && OccursAt(piece, pattern, i);
    var longer := Insert(text, at, piece);
    forall k | 0 <= k < |pattern| ensures longer[at + i + k] == pattern[k] {
      assert piece[i + k] == pattern[k];
    }
    assert OccursAt(longer, pattern, at + i);
  }

  /** A pattern that avoids some character lies on one side of every copy of that character. */
  lemma SeparatorSplits(left: string, c: char, right: string, pattern: string)
    requires c !in pattern
    requires Contains(left + [c] + right, pattern)
    ensures Contains(left, pattern) || Contains(right, pattern)
  {
    var text := left + [c] + right;
    var i :| 0 <= i <= |text| && OccursAt(text, pattern, i);
    CoveredCharacter(text, pattern, i, |left|);
    if i + |pattern| <= |left| {
      forall k | 0 <= k < |pattern| ensures left[i + k] == pattern[k] {
        assert text[i + k] == pattern[k];
      }
      assert OccursAt(left, pattern, i);
    } else {
      var j := i - |left| - 1;
      forall k | 0 <= k < |pattern| ensures right[j + k] == pattern[k] {
        assert text[i + k] == pattern[k];
      }
      assert OccursAt(right, pattern, j);
    }
  }

  /** A text without some character of a pattern does not contain the pattern. */
  lemma ForeignCharacterExcludes(text: string, pattern: string, c: char)
    ensures c in pattern && Contains(text, pattern) ==> c in text
  {
    if c in pattern && Contains(text, pattern) {
      var i :| 0 <= i <= |text| && OccursAt(text, pattern, i);
      var k :| 0 <= k < |pattern| && pattern[k] == c;
      assert text[i + k] == c;
    }
  }

  lemma PrefixAndSuffixContain(text: string, cut: nat, pattern: string)
    requires cut <= |text|
    requires Contains(text[..cut], pattern) || Contains(text[cut..], pattern)
    ensures Contains(text, pattern)
  {
    if Contains(text[..cut], pattern) {
      var i :| 0 <= i <= cut && OccursAt(text[..cut], pattern, i);
      forall k | 0 <= k < |pattern| ensures text[i + k] == pattern[k] {
        assert text[..cut][i + k] == pattern[k];
      }
      assert OccursAt(text, pattern, i);
    } else {
      var i :| 0 <= i <= |text| - cut && OccursAt(text[cut..], pattern, i);
      forall k | 0 <= k < |pattern| ensures text[cut + i + k] == pattern[k] {
        assert text[cut..][i + k] == pattern[k];
      }
      assert OccursAt(text, pattern, cut + i);
    }
  }

  // ---- Lower case ----

  /** Lower-casing as a map on characters; letters outside ASCII are left alone. */
  function LowerChar(c: char): char {
    if 'A' <= c <= 'Z' then (c as int + 32) as char else c
  }

  function Lower(s: string): (r: string)
    ensures |r| == |s| && forall i | 0 <= i < |s| :: r[i] == LowerChar(s[i])
  {
    seq(|s|, i requires 0 <= i < |s| => LowerChar(s[i]))
  }

  lemma LowerOfInsert(text: string, at: nat, piece: string)
    requires at <= |text|
    ensures Lower(Insert(text, at, piece)) == Insert(Lower(text), at, Lower(piece))
  {
  }

  lemma LowerKeepsPattern(text: string, pattern: string)
    requires Contains(text, pattern)
    ensures Contains(Lower(text), Lower(pattern))
  {
    var i :| 0 <= i <= |text| && OccursAt(text, pattern, i);
    assert OccursAt(Lower(text), Lower(pattern), i);
  }
}
