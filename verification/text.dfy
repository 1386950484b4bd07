/**
  String helpers used on upload file names: ASCII lower-casing (Python's
  `str.lower` on the characters that matter here), `str.endswith`, and the
  text after the last occurrence of a separator (`str.rsplit(sep, 1)[-1]`).
 */
module Text {

  predicate IsUpper(c: char)
  {
    'A' <= c <= 'Z'
  }

  /** ASCII lower-casing of one character. */
  function LowerChar(c: char): (d: char)
    ensures !IsUpper(d)
    ensures d == '.' <==> c == '.'
    ensures !IsUpper(c) ==> d == c
  {
    if IsUpper(c) then (c as int + 32) as char else c
  }

  /** `str.lower` on ASCII: upper-case letters become lower-case, every other character stays. */
  function Lower(s: string): (r: string)
    ensures |r| == |s|
    ensures forall i :: 0 <= i < |s| ==> r[i] == LowerChar(s[i])
    ensures forall i :: 0 <= i < |r| ==> !IsUpper(r[i])
    ensures forall i :: 0 <= i < |s| && !IsUpper(s[i]) ==> r[i] == s[i]
  {
    seq(|s|, i requires 0 <= i < |s| => LowerChar(s[i]))
  }

  /** Lower-casing an already lower-cased string changes nothing. */
  lemma LowerIdempotent(s: string)
    ensures Lower(Lower(s)) == Lower(s)
  {
  }

  /** `s.endswith(t)`. */
  predicate EndsWith(s: string, t: string)
  {
    |t| <= |s| && s[|s| - |t|..] == t
  }

  /**
    The text after the last `c` in `s`, or all of `s` when it has no `c`:
    the last piece of `s.rsplit(c, 1)`.
   */
  function AfterLast(s: string, c: char): (r: string)
    ensures EndsWith(s, r)
    ensures c !in r
    ensures c in s ==> |r| < |s| && s[|s| - |r| - 1] == c
    ensures c !in s ==> r == s
  {
    if |s| == 0 then ""
    else if s[|s| - 1] == c then ""
    else
      var init := s[..|s| - 1];
      var r0 := AfterLast(init, c);
      assert s == init + [s[|s| - 1]];
      assert s[|s| - |r0| - 1..] == init[|init| - |r0|..] + [s[|s| - 1]];
      r0 + [s[|s| - 1]]
  }

  /**
    AfterLast is the only suffix free of `c` that starts right after a `c`
    (or is the whole string).
   */
  lemma AfterLastUnique(s: string, c: char, t: string)
    requires EndsWith(s, t) && c !in t
    requires |t| == |s| || s[|s| - |t| - 1] == c
    ensures t == AfterLast(s, c)
  {
    var r := AfterLast(s, c);
    if |t| != |r| {
      assert false;
    }
  }

  lemma LowerSlice(s: string, i: nat)
    requires i <= |s|
    ensures Lower(s)[i..] == Lower(s[i..])
  {
  }

  lemma LowerHasDot(s: string)
    ensures '.' in Lower(s) <==> '.' in s
  {
    if '.' in s {
      var k :| 0 <= k < |s| && s[k] == '.';
      assert Lower(s)[k] == '.';
    }
    if '.' in Lower(s) {
      var k :| 0 <= k < |s| && Lower(s)[k] == '.';
      assert s[k] == '.';
    }
  }

  /** Lower-casing commutes with taking the text after the last dot. */
  lemma LowerAfterLastDot(s: string)
    ensures AfterLast(Lower(s), '.') == Lower(AfterLast(s, '.'))
  {
    var r := AfterLast(s, '.');
    var t := Lower(r);
    var ls := Lower(s);
    LowerSlice(s, |s| - |r|);
    LowerHasDot(r);
    if |r| < |s| {
      assert ls[|ls| - |t| - 1] == '.';
    }
    AfterLastUnique(ls, '.', t);
  }

  /** A string ending in `"." + e`, with `e` free of dots, has `e` after its last dot. */
  lemma EndsWithDotted(s: string, e: string)
    requires '.' !in e
    requires EndsWith(s, "." + e)
    ensures '.' in s
    ensures AfterLast(s, '.') == e
  {
    assert s[|s| - |e| - 1] == ("." + e)[0];
    assert s[|s| - |e|..] == ("." + e)[1..];
    AfterLastUnique(s, '.', e);
  }

  /** Conversely, a string with a dot ends in a dot followed by what comes after the last one. */
  lemma DottedEndsWith(s: string)
    requires '.' in s
    ensures EndsWith(s, "." + AfterLast(s, '.'))
  {
    var r := AfterLast(s, '.');
    assert s[|s| - |r| - 1..] == [s[|s| - |r| - 1]] + s[|s| - |r|..];
  }
}
