/** The few string operations the handlers apply: ASCII lower-casing,
    str.capitalize() and str.join / str.split on a one-character separator. */
module Text {

  function LowerChar(c: char): char {
    if 'A' <= c <= 'Z' then (c as int - 'A' as int + 'a' as int) as char else c
  }

  function UpperChar(c: char): char {
    if 'a' <= c <= 'z' then (c as int - 'a' as int + 'A' as int) as char else c
  }

  /** str.lower(), on ASCII letters. */
  function Lower(s: string): (r: string)
    ensures |r| == |s|
    ensures forall i :: 0 <= i < |s| ==> r[i] == LowerChar(s[i])
  {
    seq(|s|, i requires 0 <= i < |s| => LowerChar(s[i]))
  }

  /** str.capitalize(): the first character upper-cased, the rest lower-cased. */
  function Capitalize(s: string): (r: string)
    ensures |r| == |s|
  {
    if s == [] then [] else [UpperChar(s[0])] + Lower(s[1..])
  }

  lemma LowerIdempotent(s: string)
    ensures Lower(Lower(s)) == Lower(s)
  {
    assert forall i :: 0 <= i < |s| ==> LowerChar(LowerChar(s[i])) == LowerChar(s[i]);
  }

  /** Capitalising ignores the case the text came in. */
  lemma CapitalizeIgnoresCase(s: string)
    ensures Capitalize(Lower(s)) == Capitalize(s)
    ensures Lower(Capitalize(s)) == Lower(s)
  {
    if s != [] {
      assert UpperChar(LowerChar(s[0])) == UpperChar(s[0]);
      assert LowerChar(UpperChar(s[0])) == LowerChar(s[0]);
      assert Lower(s)[1..] == Lower(s[1..]);
      LowerIdempotent(s[1..]);
      assert Lower(Capitalize(s)) == [LowerChar(s[0])] + Lower(s[1..]);
    }
  }

  /** sep.join(parts). */
  function Join(sep: char, parts: seq<string>): string {
    if parts == [] then []
    else if |parts| == 1 then parts[0]
    else parts[0] + [sep] + Join(sep, parts[1..])
  }

  /** s.split(sep): always at least one piece. */
  function Split(sep: char, s: string): (pieces: seq<string>)
    ensures |pieces| >= 1
  {
    if s == [] then [[]]
    else
      var rest := Split(sep, s[1..]);
      if s[0] == sep then [[]] + rest else [[s[0]] + rest[0]] + rest[1..]
  }

  /** A piece without the separator glues onto the first piece of what
      follows it. */
  lemma {:induction false} SplitPrefix(sep: char, a: string, s: string)
    requires sep !in a
    ensures Split(sep, a + s) == [a + Split(sep, s)[0]] + Split(sep, s)[1..]
  {
    if a != [] {
      assert (a + s)[0] == a[0] != sep;
      assert (a + s)[1..] == a[1..] + s;
      SplitPrefix(sep, a[1..], s);
      assert [a[0]] + (a[1..] + Split(sep, s)[0]) == a + Split(sep, s)[0];
    } else {
      assert a + s == s;
      assert a + Split(sep, s)[0] == Split(sep, s)[0];
      assert [Split(sep, s)[0]] + Split(sep, s)[1..] == Split(sep, s);
    }
  }

  /** Joining parts that do not contain the separator and splitting the
      result gives the parts back. */
  lemma {:induction false} SplitJoin(sep: char, parts: seq<string>)
    requires |parts| >= 1
    requires forall i :: 0 <= i < |parts| ==> sep !in parts[i]
    ensures Split(sep, Join(sep, parts)) == parts
  {
    if |parts| == 1 {
      SplitPrefix(sep, parts[0], []);
      assert Split(sep, []) == [[]];
      assert parts[0] + [] == parts[0];
      assert Join(sep, parts) == parts[0];
    } else {
      var rest := Join(sep, parts[1..]);
      SplitJoin(sep, parts[1..]);
      assert parts[0] + [sep] + rest == parts[0] + ([sep] + rest);
      SplitPrefix(sep, parts[0], [sep] + rest);
      assert ([sep] + rest)[1..] == rest;
      assert Split(sep, [sep] + rest) == [[]] + parts[1..];
      assert Join(sep, parts) == parts[0] + ([sep] + rest);
      assert parts[0] + [] == parts[0];
      assert parts == [parts[0]] + parts[1..];
    }
  }

  /** s.split(sep) has one piece more than s has separators. */
  lemma {:induction false} SplitCount(sep: char, s: string)
    ensures |Split(sep, s)| == multiset(s)[sep] + 1
  {
    if s != [] {
      SplitCount(sep, s[1..]);
      assert s == [s[0]] + s[1..];
      assert multiset(s) == multiset([s[0]]) + multiset(s[1..]);
    }
  }
}
