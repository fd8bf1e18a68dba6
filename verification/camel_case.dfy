/**
  Rewriting of mapping keys from snake_case to camelCase: the substitution of
  the pattern `_([a-z])` by the upper-cased letter, applied to every
  non-overlapping occurrence from left to right.
 */
module CamelCase {

  /** The character class `[a-z]`: ASCII lower-case letters only. */
  predicate IsLower(c: char) {
    'a' <= c <= 'z'
  }

  /** Upper-casing of an ASCII lower-case letter. */
  function ToUpper(c: char): (u: char)
    requires IsLower(c)
    ensures 'A' <= u <= 'Z'
    ensures u as int - 'A' as int == c as int - 'a' as int
  {
    (c as int - 'a' as int + 'A' as int) as char
  }

  /** The pattern `_[a-z]` occurs in `s` starting at position `i`. */
  predicate MatchAt(s: string, i: int) {
    0 <= i && i + 1 < |s| && s[i] == '_' && IsLower(s[i + 1])
  }

  /** `s` contains no occurrence of the pattern anywhere. */
  predicate NoMatch(s: string) {
    forall i :: 0 <= i < |s| ==> !MatchAt(s, i)
  }

  /**
    The number of positions at which the pattern occurs. Two occurrences can
    never overlap (the second character of one is a letter, not `_`), so this
    is also the number of substitutions a left-to-right scan makes.
   */
  function CountMatches(s: string): nat {
    if |s| == 0 then 0
    else (if MatchAt(s, 0) then 1 else 0) + CountMatches(s[1..])
  }

  /**
    The snake-to-camel conversion of a key. Each `_` followed by a lower-case
    letter is dropped and the letter upper-cased; every other character,
    including a `_` before a digit, an upper-case letter, another `_` or the
    end of the key, is kept in place.
   */
  function ToCamel(s: string): (r: string)
    ensures |r| <= |s|
    ensures 0 < |s| ==> 0 < |r|
  {
    if |s| == 0 then ""
    else if MatchAt(s, 0) then
      [ToUpper(s[1])] + ToCamel(s[2..])
    else
      [s[0]] + ToCamel(s[1..])
  }

  /** The conversion is shorter than the key by exactly the number of matches. */
  lemma {:induction false} ToCamelLength(s: string)
    ensures |ToCamel(s)| == |s| - CountMatches(s)
  {
    if |s| == 0 {
    } else if MatchAt(s, 0) {
      assert !MatchAt(s[1..], 0);
      assert s[1..][1..] == s[2..];
      ToCamelLength(s[2..]);
    } else {
      ToCamelLength(s[1..]);
    }
  }

  /** A key without matches is its own conversion. */
  lemma {:induction false} ToCamelUnchanged(s: string)
    requires CountMatches(s) == 0
    ensures ToCamel(s) == s
  {
    if |s| > 0 {
      ToCamelUnchanged(s[1..]);
      assert s == [s[0]] + s[1..];
    }
  }

  /** The first character of a conversion: the upper-cased letter of a match at the front, or the first character itself. */
  lemma FirstOfToCamel(s: string)
    requires |s| > 0
    ensures |ToCamel(s)| > 0
    ensures ToCamel(s)[0] == if MatchAt(s, 0) then ToUpper(s[1]) else s[0]
  {
  }

  /** Counting positions agrees with the absence of any match. */
  lemma {:induction false} CountMatchesZero(s: string)
    ensures CountMatches(s) == 0 <==> NoMatch(s)
  {
    if |s| > 0 {
      CountMatchesZero(s[1..]);
      if CountMatches(s) == 0 {
        forall i
          ensures !MatchAt(s, i)
        {
          if 0 < i {
            assert !MatchAt(s[1..], i - 1);
          }
        }
      } else if !MatchAt(s, 0) {
        var i :| 0 <= i < |s[1..]| && MatchAt(s[1..], i);
        assert MatchAt(s, i + 1);
      }
    }
  }

  /** A conversion leaves no `_` in front of a lower-case letter behind. */
  lemma {:induction false} ToCamelNoMatch(s: string)
    ensures NoMatch(ToCamel(s))
  {
    if |s| == 0 {
    } else if MatchAt(s, 0) {
      var t := s[2..];
      ToCamelNoMatch(t);
      var r := ToCamel(s);
      assert r == [ToUpper(s[1])] + ToCamel(t);
      forall i
        ensures !MatchAt(r, i)
      {
        if 0 < i {
          assert !MatchAt(ToCamel(t), i - 1);
        }
      }
    } else {
      var t := s[1..];
      ToCamelNoMatch(t);
      var r := ToCamel(s);
      assert r == [s[0]] + ToCamel(t);
      forall i
        ensures !MatchAt(r, i)
      {
        if 0 < i {
          assert !MatchAt(ToCamel(t), i - 1);
        } else if i == 0 && |t| > 0 {
          FirstOfToCamel(t);
        }
      }
    }
  }

  /** Converting a converted key changes nothing. */
  lemma {:induction false} ToCamelIdempotent(s: string)
    ensures ToCamel(ToCamel(s)) == ToCamel(s)
  {
    ToCamelNoMatch(s);
    CountMatchesZero(ToCamel(s));
    ToCamelUnchanged(ToCamel(s));
  }

  /** A key is returned unchanged exactly when it contains no match. */
  lemma ToCamelFixedPoint(s: string)
    ensures ToCamel(s) == s <==> NoMatch(s)
  {
    CountMatchesZero(s);
    ToCamelLength(s);
    if NoMatch(s) {
      ToCamelUnchanged(s);
    }
  }

  /** Converting one character that does not start a match keeps it. */
  lemma ToCamelKeep(c: char, t: string)
    requires !(c == '_' && 0 < |t| && IsLower(t[0]))
    ensures ToCamel([c] + t) == [c] + ToCamel(t)
  {
    assert ([c] + t)[1..] == t;
  }

  /** Converting a match at the front upper-cases its letter. */
  lemma ToCamelMatch(l: char, t: string)
    requires IsLower(l)
    ensures ToCamel(['_', l] + t) == [ToUpper(l)] + ToCamel(t)
  {
    assert (['_', l] + t)[2..] == t;
  }

  /**
    The substitution works piece by piece: converting a concatenation converts
    each part, unless the cut separates a `_` from the letter after it.
   */
  lemma {:induction false} ToCamelAppend(a: string, b: string)
    requires !(0 < |a| && a[|a| - 1] == '_' && 0 < |b| && IsLower(b[0]))
    ensures ToCamel(a + b) == ToCamel(a) + ToCamel(b)
  {
    if |a| == 0 {
      assert a + b == b;
    } else if MatchAt(a, 0) {
      var l, t := a[1], a[2..];
      assert a == ['_', l] + t;
      assert a + b == ['_', l] + (t + b);
      calc {
        ToCamel(a + b);
        { ToCamelMatch(l, t + b); }
        [ToUpper(l)] + ToCamel(t + b);
        { ToCamelAppend(t, b); }
        [ToUpper(l)] + (ToCamel(t) + ToCamel(b));
        ([ToUpper(l)] + ToCamel(t)) + ToCamel(b);
        { ToCamelMatch(l, t); }
        ToCamel(a) + ToCamel(b);
      }
    } else {
      var c, t := a[0], a[1..];
      assert a == [c] + t;
      assert a + b == [c] + (t + b);
      calc {
        ToCamel(a + b);
        { ToCamelKeep(c, t + b); }
        [c] + ToCamel(t + b);
        { ToCamelAppend(t, b); }
        [c] + (ToCamel(t) + ToCamel(b));
        ([c] + ToCamel(t)) + ToCamel(b);
        { ToCamelKeep(c, t); }
        ToCamel(a) + ToCamel(b);
      }
    }
  }

  /** The regular-expression engine's scan: one left-to-right pass over the key. */
  method Substitute(s: string) returns (r: string)
    ensures r == ToCamel(s)
    ensures NoMatch(r)
  {
    r := "";
    var i := 0;
    while i < |s|
      invariant 0 <= i <= |s|
      invariant r + ToCamel(s[i..]) == ToCamel(s)
    {
      if i + 1 < |s| && s[i] == '_' && IsLower(s[i + 1]) {
        assert MatchAt(s[i..], 0);
        assert s[i..][2..] == s[i + 2..];
        r := r + [ToUpper(s[i + 1])];
        i := i + 2;
      } else {
        assert !MatchAt(s[i..], 0);
        assert s[i..][1..] == s[i + 1..];
        r := r + [s[i]];
        i := i + 1;
      }
    }
    assert s[i..] == "";
    ToCamelNoMatch(s);
  }

  /** The head of the example key `foo_bar_baz` has no match. */
  lemma ToCamelExampleHead()
    ensures ToCamel("foo") == "foo"
  {
    ToCamelFixedPoint("foo");
  }

  /** The tail of the example key `foo_bar_baz` holds two matches. */
  lemma ToCamelExampleTail()
    ensures ToCamel("_bar_baz") == "BarBaz"
  {
    ToCamelMatch('b', "az");
    ToCamelFixedPoint("az");
    assert ToCamel("_baz") == "Baz";
    ToCamelMatch('b', "ar");
    ToCamelFixedPoint("ar");
    assert ToCamel("_bar") == "Bar";
    ToCamelAppend("_bar", "_baz");
    assert "_bar" + "_baz" == "_bar_baz";
  }

  /**
    The example key `foo_bar_baz` becomes `fooBarBaz`. The key arrives as its
    two parts `foo` and `_bar_baz`, pinned by the precondition, so that the
    proof composes the two part lemmas instead of unfolding the conversion on
    one literal character by character.
   */
  lemma ToCamelExample(head: string, tail: string)
    requires head == "foo" && tail == "_bar_baz"
    ensures ToCamel(head + tail) == "fooBarBaz"
  {
    ToCamelExampleHead();
    ToCamelExampleTail();
    ToCamelAppend(head, tail);
  }

  /** A `_` before a digit, an upper-case letter or another `_` is kept. */
  lemma ToCamelKeepsOtherUnderscores()
    ensures ToCamel("a_1") == "a_1"
    ensures ToCamel("a_B") == "a_B"
    ensures ToCamel("a__b") == "a_B"
  {
    ToCamelKeep('1', "");
    ToCamelKeep('_', "1");
    ToCamelKeep('a', "_1");
    ToCamelKeep('B', "");
    ToCamelKeep('_', "B");
    ToCamelKeep('a', "_B");
    ToCamelKeep('b', "");
    ToCamelMatch('b', "");
    ToCamelKeep('_', "_b");
    ToCamelKeep('a', "__b");
  }
}
