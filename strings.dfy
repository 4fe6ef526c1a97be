/** String predicates that give the three literal regular expressions of the
    configuration their meaning: a pattern anchored at the end (`/\.elm$/`)
    is a suffix test, an unanchored literal (`/elm-stuff/`) is a substring
    test. No general regular-expression engine is modelled. */
module Strings {

  /** `s` begins with `prefix`. */
  predicate StartsWith(s: string, prefix: string) {
    |prefix| <= |s| && s[..|prefix|] == prefix
  }

  /** `s` ends with `suffix`: what an end-anchored literal pattern matches. */
  predicate EndsWith(s: string, suffix: string) {
    |suffix| <= |s| && s[|s| - |suffix|..] == suffix
  }

  /** `s` contains `infix` somewhere: what an unanchored literal pattern
      matches. Defined by scanning the start positions one at a time, as a
      regular-expression search does. */
  predicate Contains(s: string, infix: string)
    decreases |s|
  {
    StartsWith(s, infix) || (|s| > 0 && Contains(s[1..], infix))
  }

  /** Reference definition: `infix` occurs in `s` at position `i`. */
  ghost predicate OccursAt(s: string, infix: string, i: int) {
    0 <= i && i + |infix| <= |s| && s[i..i + |infix|] == infix
  }

  /** Reference definition of a suffix: `s` is some string followed by `suffix`. */
  ghost predicate IsSuffixOf(suffix: string, s: string) {
    exists front :: s == front + suffix
  }

  /** The suffix test agrees with the reference definition, both ways. */
  lemma EndsWithIff(s: string, suffix: string)
    ensures EndsWith(s, suffix) <==> IsSuffixOf(suffix, s)
  {
    if EndsWith(s, suffix) {
      var front := s[..|s| - |suffix|];
      assert s == front + suffix;
    }
    if IsSuffixOf(suffix, s) {
      var front :| s == front + suffix;
      assert s[|s| - |suffix|..] == suffix;
    }
  }

  /** Appending a suffix makes the suffix test succeed. */
  lemma EndsWithAppend(front: string, suffix: string)
    ensures EndsWith(front + suffix, suffix)
  {
  }

  /** The scanning search agrees with the reference definition, both ways. */
  lemma {:induction false} ContainsIff(s: string, infix: string)
    ensures Contains(s, infix) <==> exists i :: OccursAt(s, infix, i)
    decreases |s|
  {
    if StartsWith(s, infix) {
      assert OccursAt(s, infix, 0);
    } else if |s| == 0 {
      // The empty string starts with the empty pattern, so `infix` is not empty.
      assert |infix| > 0 by { assert StartsWith(s, []); }
    } else {
      ContainsIff(s[1..], infix);
      if Contains(s[1..], infix) {
        var i :| OccursAt(s[1..], infix, i);
        assert s[i + 1..i + 1 + |infix|] == s[1..][i..i + |infix|];
        assert OccursAt(s, infix, i + 1);
      }
      assert !OccursAt(s, infix, 0) by {
        if |infix| <= |s| { assert s[0..|infix|] == s[..|infix|]; }
      }
      forall i | OccursAt(s, infix, i) ensures Contains(s[1..], infix) {
        assert s[1..][i - 1..i - 1 + |infix|] == s[i..i + |infix|];
        assert OccursAt(s[1..], infix, i - 1);
      }
    }
  }

  /** A string built around `infix` contains it. */
  lemma {:induction false} ContainsInfix(front: string, infix: string, back: string)
    ensures Contains(front + infix + back, infix)
    decreases |front|
  {
    var s := front + infix + back;
    if front == [] {
      assert s[..|infix|] == infix;
    } else {
      ContainsInfix(front[1..], infix, back);
      assert s[1..] == front[1..] + infix + back;
    }
  }

  /** A string that lacks one of the characters of `infix` cannot contain it. */
  lemma {:induction false} MissingCharNotContained(s: string, infix: string, c: char)
    requires c in infix && c !in s
    ensures !Contains(s, infix)
    decreases |s|
  {
    if |infix| <= |s| {
      var k :| 0 <= k < |infix| && infix[k] == c;
      assert s[..|infix|][k] != infix[k];
    }
    if |s| > 0 {
      assert forall k :: 0 <= k < |s[1..]| ==> s[1..][k] == s[k + 1];
      assert c !in s[1..];
      MissingCharNotContained(s[1..], infix, c);
    }
  }

}
