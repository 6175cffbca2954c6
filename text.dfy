/**
 * The string operations the classifier and the bearer-header parser rely on:
 * lower-casing, substring search, "some element matches" over a keyword
 * list, and splitting on a one-character separator. Lower-casing is
 * modelled on ASCII letters only.
 */
module Text {

  function LowerChar(c: char): char
  {
    if 'A' <= c <= 'Z' then (c as int + 32) as char else c
  }

  /**
   * `s.toLowerCase()` / `s.lower()`, restricted to ASCII letters: no capital
   * is left, each capital becomes its small letter, and every other
   * character stays where and what it was.
   */
  function Lower(s: string): (r: string)
    ensures |r| == |s|
    ensures forall i :: 0 <= i < |r| ==> !('A' <= r[i] <= 'Z')
    ensures forall i :: 0 <= i < |s| && 'A' <= s[i] <= 'Z' ==> r[i] as int == s[i] as int + 32
    ensures forall i :: 0 <= i < |s| && !('A' <= s[i] <= 'Z') ==> r[i] == s[i]
  {
    seq(|s|, i requires 0 <= i < |s| => LowerChar(s[i]))
  }

  /** Lower-casing twice is lower-casing once. */
  lemma LowerIdempotent(s: string)
    ensures Lower(Lower(s)) == Lower(s)
  {
  }

  /** Lower-casing works character by character, so it distributes over concatenation. */
  lemma LowerAppend(a: string, b: string)
    ensures Lower(a + b) == Lower(a) + Lower(b)
  {
  }

  /** `needle` occurs in `hay` starting at index `i`. */
  ghost predicate OccursAt(needle: string, hay: string, i: int)
  {
    0 <= i && i + |needle| <= |hay| && hay[i..i + |needle|] == needle
  }

  /** The reference meaning of substring containment. */
  ghost predicate IsSubstring(needle: string, hay: string)
  {
    exists i :: OccursAt(needle, hay, i)
  }

  /** `hay.includes(needle)` / `needle in hay`: a left-to-right scan. */
  function Contains(hay: string, needle: string): (b: bool)
    ensures b ==> |needle| <= |hay|
    ensures |needle| <= |hay| && hay[..|needle|] == needle ==> b
    decreases |hay|
  {
    if |needle| > |hay| then false
    else if hay[..|needle|] == needle then true
    else Contains(hay[1..], needle)
  }

  /** A slice of the tail is the slice of the whole string one position further on. */
  lemma SliceOfTail(hay: string, i: int, n: int)
    requires 0 <= i && 0 <= n && i + n + 1 <= |hay|
    ensures hay[1..][i..i + n] == hay[i + 1..i + 1 + n]
  {
    var part := hay[1..][i..i + n];
    assert forall k :: 0 <= k < n ==> part[k] == hay[i + 1 + k];
  }

  /** The scan finds `needle` exactly when it occurs somewhere in `hay`. */
  lemma {:induction false} ContainsIsSubstring(hay: string, needle: string)
    ensures Contains(hay, needle) <==> IsSubstring(needle, hay)
    decreases |hay|
  {
    if |needle| > |hay| {
      assert forall i :: !OccursAt(needle, hay, i);
    } else if hay[..|needle|] == needle {
      assert OccursAt(needle, hay, 0);
    } else {
      ContainsIsSubstring(hay[1..], needle);
      if IsSubstring(needle, hay[1..]) {
        var i :| OccursAt(needle, hay[1..], i);
        SliceOfTail(hay, i, |needle|);
        assert OccursAt(needle, hay, i + 1);
      }
      if IsSubstring(needle, hay) {
        var i :| OccursAt(needle, hay, i);
        assert i != 0;
        SliceOfTail(hay, i - 1, |needle|);
        assert OccursAt(needle, hay[1..], i - 1);
      }
    }
  }

  /** An occurrence survives any text put before or after the string. */
  lemma SubstringOfExtension(needle: string, hay: string, before: string, after: string)
    requires IsSubstring(needle, hay)
    ensures IsSubstring(needle, before + hay + after)
  {
    var i :| OccursAt(needle, hay, i);
    var whole := before + hay + after;
    assert whole[|before| + i..|before| + i + |needle|] == hay[i..i + |needle|];
    assert OccursAt(needle, whole, |before| + i);
  }

  /** Every character of a needle that occurs in `hay` occurs in `hay` too. */
  lemma CharOccurs(needle: string, hay: string, at: int)
    requires 0 <= at < |needle|
    requires IsSubstring(needle, hay)
    ensures needle[at] in hay
  {
    var i :| OccursAt(needle, hay, i);
    assert hay[i..i + |needle|][at] == hay[i + at];
  }

  /** A needle holding a character that `hay` lacks does not occur in it. */
  lemma AbsentChar(needle: string, hay: string, c: char)
    requires c in needle && c !in hay
    ensures !IsSubstring(needle, hay)
  {
    var at :| 0 <= at < |needle| && needle[at] == c;
    if IsSubstring(needle, hay) {
      CharOccurs(needle, hay, at);
    }
  }

  /** `keywords.some(k => hay.includes(k))` / `any(k in hay for k in keywords)`. */
  function AnyContains(hay: string, keywords: seq<string>): (b: bool)
    ensures b <==> exists k :: k in keywords && IsSubstring(k, hay)
  {
    if keywords == [] then false
    else
      ContainsIsSubstring(hay, keywords[0]);
      Contains(hay, keywords[0]) || AnyContains(hay, keywords[1..])
  }

  /** `fields.join(sep)`: the inverse of `Split`. */
  function Join(fields: seq<string>, sep: char): string
    requires |fields| >= 1
  {
    if |fields| == 1 then fields[0] else fields[0] + [sep] + Join(fields[1..], sep)
  }

  /**
   * `s.split(sep)` for a one-character separator: the maximal runs between
   * separators, empty ones included, so that joining them back gives `s`.
   */
  function Split(s: string, sep: char): (fields: seq<string>)
    ensures |fields| >= 1
    ensures forall f :: f in fields ==> sep !in f
    ensures Join(fields, sep) == s
  {
    if s == [] then [""]
    else
      var rest := Split(s[1..], sep);
      if s[0] == sep then
        assert [""] + rest == [""] + rest[..];
        [""] + rest
      else
        var fields := [[s[0]] + rest[0]] + rest[1..];
        assert fields[1..] == rest[1..];
        assert s == [s[0]] + s[1..];
        fields
  }

  /** A string with no separator splits into itself alone. */
  lemma {:induction false} SplitWithoutSeparator(a: string, sep: char)
    requires sep !in a
    ensures Split(a, sep) == [a]
  {
    if a != [] {
      SplitWithoutSeparator(a[1..], sep);
    }
  }

  /** Splitting peels off everything before the first separator. */
  lemma {:induction false} SplitAtFirstSeparator(a: string, sep: char, b: string)
    requires sep !in a
    ensures Split(a + [sep] + b, sep) == [a] + Split(b, sep)
    decreases |a|
  {
    var s := a + [sep] + b;
    if a == [] {
      assert s[1..] == b;
    } else {
      assert s[1..] == a[1..] + [sep] + b;
      SplitAtFirstSeparator(a[1..], sep, b);
      assert [a[0]] + a[1..] == a;
    }
  }

  /** Round trip: fields without the separator are recovered from their join. */
  lemma {:induction false} SplitJoin(fields: seq<string>, sep: char)
    requires |fields| >= 1
    requires forall f :: f in fields ==> sep !in f
    ensures Split(Join(fields, sep), sep) == fields
  {
    if |fields| == 1 {
      SplitWithoutSeparator(fields[0], sep);
    } else {
      SplitJoin(fields[1..], sep);
      SplitAtFirstSeparator(fields[0], sep, Join(fields[1..], sep));
    }
  }
}
