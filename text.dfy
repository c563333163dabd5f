/**
 * The string operations the listing relies on: case-insensitive containment
 * (the `icontains` lookup of the search filter) and the order of titles (the
 * `title` sort key). Case folding is ASCII-only and titles compare by code
 * point.
 */
module Text {

  predicate IsUpper(c: char) {
    'A' <= c <= 'Z'
  }

  /** ASCII lower-casing of one character; every other character is kept. */
  function Lower(c: char): (r: char)
    ensures !IsUpper(r)
    ensures IsUpper(c) ==> r as int - c as int == 'a' as int - 'A' as int
    ensures !IsUpper(c) ==> r == c
  {
    if IsUpper(c) then (c as int - 'A' as int + 'a' as int) as char else c
  }

  /** ASCII lower-casing of a string, character by character. */
  function LowerStr(s: string): (r: string)
    ensures |r| == |s|
    ensures forall i | 0 <= i < |s| :: r[i] == Lower(s[i])
  {
    seq(|s|, i requires 0 <= i < |s| => Lower(s[i]))
  }

  /** `needle` stands in `hay` from position `i` on. */
  ghost predicate OccursAt(needle: string, hay: string, i: int) {
    0 <= i && i + |needle| <= |hay| && hay[i..i + |needle|] == needle
  }

  /** The reference meaning of containment: some position of `hay` starts a copy of `needle`. */
  ghost predicate OccursIn(needle: string, hay: string) {
    exists i :: OccursAt(needle, hay, i)
  }

  /** Dropping the first character of `hay` shifts every occurrence one position left. */
  lemma OccursShift(needle: string, hay: string, i: nat)
    requires hay != []
    ensures OccursAt(needle, hay[1..], i) <==> OccursAt(needle, hay, i + 1)
  {
    if i + |needle| <= |hay[1..]| {
      assert hay[1..][i..i + |needle|] == hay[i + 1..i + 1 + |needle|];
    }
  }

  /** Where `needle` is not a prefix of `hay`, it occurs in `hay` exactly when it occurs in `hay` without its first character. */
  lemma OccursPastHead(needle: string, hay: string)
    requires hay != [] && !(needle <= hay)
    ensures OccursIn(needle, hay) <==> OccursIn(needle, hay[1..])
  {
    if OccursIn(needle, hay[1..]) {
      var i: nat :| OccursAt(needle, hay[1..], i);
      OccursShift(needle, hay, i);
    }
    if OccursIn(needle, hay) {
      var i :| OccursAt(needle, hay, i);
      assert i != 0;
      OccursShift(needle, hay, i - 1);
    }
  }

  /**
   * Containment by scanning `hay` for a position where `needle` is a prefix;
   * the scan succeeds exactly when `needle` occurs somewhere in `hay`.
   */
  function Contains(hay: string, needle: string): (r: bool)
    ensures r <==> OccursIn(needle, hay)
    decreases |hay|
  {
    if needle <= hay then
      assert OccursAt(needle, hay, 0);
      true
    else if hay == [] then
      false
    else
      OccursPastHead(needle, hay);
      Contains(hay[1..], needle)
  }

  /** `icontains`: containment after lower-casing both sides. */
  function IContains(hay: string, needle: string): (b: bool)
    ensures b <==> OccursIn(LowerStr(needle), LowerStr(hay))
  {
    Contains(LowerStr(hay), LowerStr(needle))
  }

  /** Lexicographic order of strings by code point; a prefix comes first. */
  predicate TitleLe(a: string, b: string)
    decreases |a|
  {
    a == [] || (b != [] && (a[0] < b[0] || (a[0] == b[0] && TitleLe(a[1..], b[1..]))))
  }

  /** Any two titles are comparable. */
  lemma {:induction false} TitleLeTotal(a: string, b: string)
    ensures TitleLe(a, b) || TitleLe(b, a)
    decreases |a|
  {
    if a != [] && b != [] && a[0] == b[0] {
      TitleLeTotal(a[1..], b[1..]);
    }
  }

  /** The title order is transitive. */
  lemma {:induction false} TitleLeTrans(a: string, b: string, c: string)
    requires TitleLe(a, b) && TitleLe(b, c)
    ensures TitleLe(a, c)
    decreases |a|
  {
    if a != [] && a[0] == b[0] && b[0] == c[0] {
      TitleLeTrans(a[1..], b[1..], c[1..]);
    }
  }

  /** Two titles that each come first are the same title. */
  lemma {:induction false} TitleLeAntisymmetric(a: string, b: string)
    requires TitleLe(a, b) && TitleLe(b, a)
    ensures a == b
    decreases |a|
  {
    if a != [] {
      TitleLeAntisymmetric(a[1..], b[1..]);
      assert a == [a[0]] + a[1..] && b == [b[0]] + b[1..];
    }
  }
}
