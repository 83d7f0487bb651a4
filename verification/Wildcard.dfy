/** match of tlm_util.c: '?' is one character, '*' any string, every other character is itself. */
module Wildcard {
  import opened Bytes

  const QUESTION: byte := 63
  const STAR: byte := 42

  /** The documented meaning of a pattern. */
  ghost predicate Matches(p: Str, s: Str)
    decreases |p|
  {
    if p == [] then s == []
    else if p[0] == STAR then exists k :: 0 <= k <= |s| && Matches(p[1..], s[k..])
    else s != [] && (p[0] == QUESTION || p[0] == s[0]) && Matches(p[1..], s[1..])
  }

  predicate AllStars(p: Str) {
    forall i :: 0 <= i < |p| ==> p[i] == STAR
  }

  /** The pattern the code obeys: a run of two or more stars at the end asks for one character at least. */
  function Norm(p: Str): Str {
    if AllStars(p) && |p| >= 2 then [QUESTION, STAR]
    else if p == [] then []
    else [p[0]] + Norm(p[1..])
  }

  predicate EndsInTwoStars(p: Str) {
    |p| >= 2 && p[|p| - 1] == STAR && p[|p| - 2] == STAR
  }

  /** A pattern without wildcards. */
  predicate Literal(p: Str) {
    forall i :: 0 <= i < |p| ==> p[i] != STAR && p[i] != QUESTION
  }

  /** It matches just itself. */
  lemma {:induction false} LiteralMatches(p: Str, s: Str)
    requires Literal(p)
    ensures Norm(p) == p && (Matches(p, s) <==> p == s)
  {
    if p != [] {
      assert p[0] != STAR;
      LiteralMatches(p[1..], if s == [] then [] else s[1..]);
      assert p == [p[0]] + p[1..] && (s != [] ==> s == [s[0]] + s[1..]);
    }
  }

  lemma {:induction false} MatchesEmpty(p: Str)
    ensures Matches(p, []) <==> AllStars(p)
  {
    if p != [] && p[0] == STAR {
      MatchesEmpty(p[1..]);
      assert AllStars(p) <==> AllStars(p[1..]) by {
        assert forall i :: 1 <= i < |p| ==> p[i] == p[1..][i - 1];
      }
      var e: Str := [];
      assert e[0..] == e;
    }
  }

  lemma QuestionStar(s: Str)
    ensures Matches([QUESTION, STAR], s) <==> s != []
    ensures Matches([STAR], s)
  {
    assert [QUESTION, STAR][1..] == [STAR] && [STAR][1..] == [];
    forall t: Str
      ensures Matches([STAR], t)
    {
      assert t[|t|..] == [] && Matches([STAR][1..], t[|t|..]);
    }
  }

  lemma ConsStars(c: byte, p: Str)
    ensures AllStars([c] + p) <==> c == STAR && AllStars(p)
  {
    var q := [c] + p;
    assert forall i :: 0 <= i < |p| ==> p[i] == q[i + 1];
    assert q[0] == c;
  }

  lemma {:induction false} NormStars(p: Str)
    ensures AllStars(Norm(p)) <==> AllStars(p) && |p| <= 1
  {
    if AllStars(p) && |p| >= 2 {
      assert Norm(p)[0] == QUESTION;
    } else if p != [] {
      NormStars(p[1..]);
      ConsStars(p[0], Norm(p[1..]));
      ConsStars(p[0], p[1..]);
      assert p == [p[0]] + p[1..];
    }
  }

  /** What the code's star loop tries, the suffixes that still have a character, is what the star means. */
  lemma StarLoop(p: Str, s: Str)
    requires |p| >= 2 && p[0] == STAR
    ensures Matches(Norm(p), s) <==> exists k :: 0 <= k < |s| && Matches(Norm(p[1..]), s[k..])
  {
    var rest := p[1..];
    if AllStars(p) {
      QuestionStar(s);
      assert AllStars(rest);
      if s != [] {
        QuestionStar(s[0..]);
        assert |rest| == 1 ==> Norm(rest) == [STAR] by {
          assert |rest| == 1 ==> Norm(rest[1..]) == [] && rest == [STAR];
        }
        assert Matches(Norm(rest), s[0..]);
      }
    } else {
      assert !AllStars(rest);
      var n := Norm(p);
      assert n == [STAR] + Norm(rest) && n[1..] == Norm(rest);
      NormStars(rest);
      MatchesEmpty(Norm(rest));
      assert s[|s|..] == [];
    }
  }

  /** match: an index pair moves along; at a star the rest of the pattern is tried further on. */
  method Match(patn: Str, str: Str) returns (r: bool)
    ensures r <==> Matches(Norm(patn), str)
    decreases |patn|, 0
  {
    var p, q := 0, 0;
    while true
      invariant 0 <= p <= |patn| && 0 <= q <= |str|
      invariant Matches(Norm(patn), str) <==> Matches(Norm(patn[p..]), str[q..])
      decreases |patn| - p
    {
      ghost var rest, s := patn[p..], str[q..];
      if p == |patn| {
        return q == |str|;
      }
      if patn[p] == STAR {
        p := p + 1;
        if p == |patn| {
          OneStar(rest, s);
          return true;
        }
        StarLoop(rest, s);
        assert rest[1..] == patn[p..];
        r := MatchAnywhere(patn[p..], str[q..]);
        return;
      }
      LiteralStep(rest, s);
      if q == |str| || (patn[p] != QUESTION && patn[p] != str[q]) {
        return false;
      }
      assert rest[1..] == patn[p + 1..] && s[1..] == str[q + 1..];
      p, q := p + 1, q + 1;
    }
  }

  /** The star's loop: every suffix of the string that still has a character. */
  method MatchAnywhere(patn: Str, str: Str) returns (r: bool)
    ensures r <==> exists k :: 0 <= k < |str| && Matches(Norm(patn), str[k..])
    decreases |patn|, 1
  {
    for q := 0 to |str|
      invariant forall k :: 0 <= k < q ==> !Matches(Norm(patn), str[k..])
    {
      var m := Match(patn, str[q..]);
      if m {
        return true;
      }
    }
    return false;
  }

  lemma OneStar(p: Str, s: Str)
    requires p == [STAR]
    ensures Matches(Norm(p), s)
  {
    assert Norm(p) == [STAR] + Norm(p[1..]);
    QuestionStar(s);
  }

  lemma LiteralStep(p: Str, s: Str)
    requires p != [] && p[0] != STAR
    ensures Matches(Norm(p), s) <==> s != [] && (p[0] == QUESTION || p[0] == s[0]) && Matches(Norm(p[1..]), s[1..])
  {
    assert Norm(p) == [p[0]] + Norm(p[1..]);
    assert Norm(p)[1..] == Norm(p[1..]);
  }

  lemma {:induction false} NormIsPattern(p: Str)
    ensures Norm(p) == p <==> !EndsInTwoStars(p)
    ensures EndsInTwoStars(p) ==> NonStars(Norm(p)) == NonStars(p) + 1
  {
    if AllStars(p) && |p| >= 2 {
      StarsNorm(p);
    } else if p != [] {
      NormIsPattern(p[1..]);
      NormFront(p);
      hide Norm, NonStars;
      assert p == [p[0]] + p[1..];
      if |p| == 2 {
        assert AllStars(p) <==> p[0] == STAR && p[1] == STAR;
      }
    }
  }

  lemma StarsNorm(p: Str)
    requires AllStars(p) && |p| >= 2
    ensures Norm(p) != p && NonStars(p) == 0 && NonStars(Norm(p)) == 1
  {
    NonStarsNone(p);
    assert [QUESTION, STAR][1..] == [STAR];
    NonStarsNone([STAR]);
    assert NonStars([QUESTION, STAR]) == 1 + NonStars([STAR]);
    assert p[0] == STAR;
  }

  lemma NormFront(p: Str)
    requires p != [] && !(AllStars(p) && |p| >= 2)
    ensures Norm(p) == [p[0]] + Norm(p[1..])
    ensures NonStars(p) - NonStars(p[1..]) == NonStars(Norm(p)) - NonStars(Norm(p[1..]))
  {
    assert Norm(p) == [p[0]] + Norm(p[1..]);
    assert Norm(p)[1..] == Norm(p[1..]);
  }

  /** Characters of the pattern that take up a character of the string. */
  function NonStars(p: Str): nat {
    if p == [] then 0 else (if p[0] == STAR then 0 else 1) + NonStars(p[1..])
  }

  lemma {:induction false} NonStarsNone(p: Str)
    requires AllStars(p)
    ensures NonStars(p) == 0
  {
    if p != [] {
      NonStarsNone(p[1..]);
    }
  }

  lemma {:induction false} MatchesLength(p: Str, s: Str)
    requires Matches(p, s)
    ensures |s| >= NonStars(p)
    decreases |p|
  {
    if p != [] {
      if p[0] == STAR {
        var k :| 0 <= k <= |s| && Matches(p[1..], s[k..]);
        MatchesLength(p[1..], s[k..]);
      } else {
        MatchesLength(p[1..], s[1..]);
      }
    }
  }

  /** A shortest string the pattern means: the pattern without its stars. */
  function Shortest(p: Str): (s: Str)
    ensures |s| == NonStars(p)
  {
    if p == [] then [] else if p[0] == STAR then Shortest(p[1..]) else [p[0]] + Shortest(p[1..])
  }

  lemma {:induction false} ShortestMatches(p: Str)
    ensures Matches(p, Shortest(p))
  {
    if p != [] {
      ShortestMatches(p[1..]);
      if p[0] == STAR {
        assert Shortest(p)[0..] == Shortest(p[1..]);
      } else {
        assert Shortest(p)[1..] == Shortest(p[1..]);
      }
    }
  }

  /** Soundness: what the code accepts, the pattern means. */
  lemma {:induction false} MatchSound(p: Str, s: Str)
    requires Matches(Norm(p), s)
    ensures Matches(p, s)
    decreases |p|
  {
    if AllStars(p) && |p| >= 2 {
      assert AllStars(p[1..]);
      MatchesEmpty(p[1..]);
      assert s[|s|..] == [];
    } else if p != [] {
      var n := Norm(p);
      assert n == [p[0]] + Norm(p[1..]) && n[1..] == Norm(p[1..]);
      if p[0] == STAR {
        var k :| 0 <= k <= |s| && Matches(n[1..], s[k..]);
        MatchSound(p[1..], s[k..]);
      } else {
        MatchSound(p[1..], s[1..]);
      }
    }
  }

  /** The code agrees with the meaning on every string exactly when the pattern does not end in two stars. */
  lemma MatchCompleteIff(p: Str)
    ensures (forall s :: Matches(Norm(p), s) <==> Matches(p, s)) <==> !EndsInTwoStars(p)
  {
    NormIsPattern(p);
    if EndsInTwoStars(p) {
      ShortestMatches(p);
      assert !Matches(Norm(p), Shortest(p)) by {
        if Matches(Norm(p), Shortest(p)) {
          MatchesLength(Norm(p), Shortest(p));
        }
      }
    }
  }
}
