/** Glob matching of query values: the greedy matcher with one backtracking point
    against the recursive meaning of '*', and that meaning against explicit fillings. */
module Glob {

  function LowerAscii(c: char): char {
    if 'A' <= c <= 'Z' then (c as int + 32) as char else c
  }

  function Lower(text: string): (r: string)
    ensures |r| == |text|
    ensures forall i :: 0 <= i < |text| ==> r[i] == LowerAscii(text[i])
  {
    seq(|text|, i requires 0 <= i < |text| => LowerAscii(text[i]))
  }

  /** The same letter, small or capital, or the same other character. */
  predicate SameLetter(a: char, b: char) {
    || a == b
    || ('a' <= a <= 'z' && 'A' <= b <= 'Z' && a as int - 'a' as int == b as int - 'A' as int)
    || ('A' <= a <= 'Z' && 'a' <= b <= 'z' && a as int - 'A' as int == b as int - 'a' as int)
  }

  ghost predicate SameButCase(s: string, t: string) {
    |s| == |t| && forall i :: 0 <= i < |s| ==> SameLetter(s[i], t[i])
  }

  /** Folding forgets the case of a text and nothing else, and leaves no capital letter. */
  lemma FoldingForgetsCase(s: string, t: string)
    ensures Lower(s) == Lower(t) <==> SameButCase(s, t)
    ensures SameButCase(s, Lower(s)) && forall i :: 0 <= i < |s| ==> !('A' <= Lower(s)[i] <= 'Z')
  {
    if Lower(s) == Lower(t) {
      forall i | 0 <= i < |s| ensures SameLetter(s[i], t[i]) { assert Lower(s)[i] == Lower(t)[i]; }
    }
    if SameButCase(s, t) {
      forall i | 0 <= i < |s| ensures Lower(s)[i] == Lower(t)[i] { assert SameLetter(s[i], t[i]); }
    }
  }

  /** The meaning of a pattern: '*' stands for any run of characters, every other
      character for itself, with the text folded to lower case. */
  predicate Matches(pattern: string, text: string)
    decreases |pattern| + |text|
  {
    if pattern == [] then text == []
    else if pattern[0] == '*' then Matches(pattern[1..], text) || (text != [] && Matches(pattern, text[1..]))
    else text != [] && pattern[0] == LowerAscii(text[0]) && Matches(pattern[1..], text[1..])
  }

  /** The text a pattern denotes once each '*' has been given a filling, left to right. */
  ghost function Fill(pattern: string, fillings: seq<string>): string {
    if pattern == [] then []
    else if pattern[0] == '*' then
      if fillings == [] then Fill(pattern[1..], []) else fillings[0] + Fill(pattern[1..], fillings[1..])
    else [pattern[0]] + Fill(pattern[1..], fillings)
  }

  /** Some choice of fillings spells the folded text. */
  ghost predicate Spells(pattern: string, text: string) { exists fillings :: Fill(pattern, fillings) == Lower(text) }

  /** A match is exactly a choice of fillings that spells the folded text. */
  lemma {:induction false} MatchesIffFilled(pattern: string, text: string)
    ensures Matches(pattern, text) <==> Spells(pattern, text)
  {
    if Matches(pattern, text) {
      var fillings := FindFillings(pattern, text);
    }
    forall fillings | Fill(pattern, fillings) == Lower(text)
      ensures Matches(pattern, text)
    {
      FilledMatches(pattern, text, fillings);
    }
  }

  lemma {:induction false} FindFillings(pattern: string, text: string) returns (fillings: seq<string>)
    requires Matches(pattern, text)
    ensures Fill(pattern, fillings) == Lower(text)
    decreases |pattern| + |text|
  {
    if pattern == [] {
      fillings := [];
    } else if pattern[0] == '*' && Matches(pattern[1..], text) {
      var rest := FindFillings(pattern[1..], text);
      fillings := [[]] + rest;
      assert fillings[1..] == rest;
    } else if pattern[0] == '*' {
      var rest := FindFillings(pattern, text[1..]);
      var head := if rest == [] then [] else rest[0];
      var tail := if rest == [] then [] else rest[1..];
      fillings := [[LowerAscii(text[0])] + head] + tail;
      assert fillings[1..] == tail;
      assert Fill(pattern, fillings) == [LowerAscii(text[0])] + Fill(pattern, rest);
      assert Lower(text) == [LowerAscii(text[0])] + Lower(text[1..]);
    } else {
      fillings := FindFillings(pattern[1..], text[1..]);
      assert Lower(text) == [LowerAscii(text[0])] + Lower(text[1..]);
    }
  }

  lemma {:induction false} FilledMatches(pattern: string, text: string, fillings: seq<string>)
    requires Fill(pattern, fillings) == Lower(text)
    ensures Matches(pattern, text)
    decreases |pattern|
  {
    if pattern == [] {
    } else if pattern[0] == '*' {
      var head := if fillings == [] then [] else fillings[0];
      var tail := if fillings == [] then [] else fillings[1..];
      var rest := Fill(pattern[1..], tail);
      assert Lower(text) == head + rest;
      assert rest == Lower(text)[|head|..] == Lower(text[|head|..]);
      FilledMatches(pattern[1..], text[|head|..], tail);
      StarAbsorbs(pattern, text, |head|);
    } else {
      assert Lower(text)[1..] == Lower(text[1..]);
      assert Fill(pattern, fillings)[1..] == Fill(pattern[1..], fillings);
      FilledMatches(pattern[1..], text[1..], fillings);
    }
  }

  /** A leading '*' may skip any number of characters. */
  lemma {:induction false} StarAbsorbs(pattern: string, text: string, n: nat)
    requires pattern != [] && pattern[0] == '*' && n <= |text|
    requires Matches(pattern, text[n..]) || Matches(pattern[1..], text[n..])
    ensures Matches(pattern, text)
    decreases n
  {
    if n == 0 {
      assert text[0..] == text;
    } else {
      assert text[1..][n - 1..] == text[n..];
      StarAbsorbs(pattern, text[1..], n - 1);
    }
  }

  /** What follows a '*' must match from some later position. */
  lemma {:induction false} StarSkips(pattern: string, text: string) returns (k: nat)
    requires pattern != [] && pattern[0] == '*' && Matches(pattern, text)
    ensures k <= |text| && Matches(pattern[1..], text[k..])
    decreases |text|
  {
    if Matches(pattern[1..], text) {
      k := 0;
      assert text[0..] == text;
    } else {
      var j := StarSkips(pattern, text[1..]);
      k := j + 1;
      assert text[1..][j..] == text[k..];
    }
  }

  ghost predicate Literal(pattern: string) { forall i :: 0 <= i < |pattern| ==> pattern[i] != '*' }

  ghost predicate Agrees(literal: string, text: string) {
    |literal| <= |text| && forall i :: 0 <= i < |literal| ==> literal[i] == LowerAscii(text[i])
  }

  /** A star-free prefix of the pattern consumes exactly as many agreeing characters. */
  lemma {:induction false} LiteralPrefix(literal: string, rest: string, text: string)
    requires Literal(literal)
    ensures Matches(literal + rest, text) <==> Agrees(literal, text) && Matches(rest, text[|literal|..])
    decreases |literal|
  {
    if literal == [] {
      assert literal + rest == rest && text[0..] == text;
    } else {
      assert (literal + rest)[1..] == literal[1..] + rest;
      if text != [] {
        LiteralPrefix(literal[1..], rest, text[1..]);
        assert |literal| <= |text| ==> text[1..][|literal| - 1..] == text[|literal|..];
        if Agrees(literal[1..], text[1..]) && literal[0] == LowerAscii(text[0]) {
          forall i | 0 <= i < |literal| ensures literal[i] == LowerAscii(text[i]) {
            if i > 0 { assert literal[1..][i - 1] == literal[i] && text[1..][i - 1] == text[i]; }
          }
        }
        if Agrees(literal, text) {
          forall i | 0 <= i < |literal| - 1 ensures literal[1..][i] == LowerAscii(text[1..][i]) {
            assert literal[1..][i] == literal[i + 1] && text[1..][i] == text[i + 1];
          }
        }
      }
    }
  }

  /** Where the segment after the current star agrees up to a later star, the later star takes over. */
  lemma {:induction false} NextStarTakesOver(pattern: string, text: string, star: nat, mark: nat, p: nat, t: nat)
    requires star < p < |pattern| && mark <= t <= |text|
    requires pattern[star] == '*' && pattern[p] == '*'
    requires Literal(pattern[star + 1..p]) && p - star - 1 == t - mark
    requires Agrees(pattern[star + 1..p], text[mark..])
    ensures Matches(pattern[star..], text[mark..]) <==> Matches(pattern[p..], text[t..])
  {
    var seg := pattern[star + 1..p];
    assert pattern[star..][1..] == pattern[star + 1..] == seg + pattern[p..];
    if Matches(pattern[p..], text[t..]) {
      assert text[mark..][|seg|..] == text[t..];
      LiteralPrefix(seg, pattern[p..], text[mark..]);
      assert text[mark..][0..] == text[mark..];
      StarAbsorbs(pattern[star..], text[mark..], 0);
    }
    if Matches(pattern[star..], text[mark..]) {
      var k := StarSkips(pattern[star..], text[mark..]);
      LiteralPrefix(seg, pattern[p..], text[mark..][k..]);
      assert text[mark..][k..][|seg|..] == text[t..][k..];
      StarAbsorbs(pattern[p..], text[t..], k);
    }
  }

  /** A mismatch after an agreeing segment rules the current mark out, and only that mark. */
  lemma {:induction false} MismatchMovesMark(pattern: string, text: string, star: nat, mark: nat, p: nat, t: nat)
    requires star < p <= |pattern| && mark <= t < |text|
    requires pattern[star] == '*'
    requires Literal(pattern[star + 1..p]) && p - star - 1 == t - mark
    requires Agrees(pattern[star + 1..p], text[mark..])
    requires p == |pattern| || (pattern[p] != '*' && pattern[p] != LowerAscii(text[t]))
    ensures Matches(pattern[star..], text[mark..]) <==> Matches(pattern[star..], text[mark + 1..])
  {
    var seg := pattern[star + 1..p];
    assert pattern[star..][1..] == seg + pattern[p..];
    LiteralPrefix(seg, pattern[p..], text[mark..]);
    assert text[mark..][|seg|..] == text[t..];
    assert !Matches(pattern[p..], text[t..]);
    assert text[mark..][1..] == text[mark + 1..];
  }

  /** What is left of the pattern at the end of the text matches iff it is all stars. */
  lemma {:induction false} StarsMatchNothing(pattern: string, p: nat, q: nat)
    requires p <= q <= |pattern|
    requires forall i :: p <= i < q ==> pattern[i] == '*'
    requires q == |pattern| || pattern[q] != '*'
    ensures Matches(pattern[p..], []) <==> q == |pattern|
    decreases q - p
  {
    if p < q {
      StarsMatchNothing(pattern, p + 1, q);
      assert pattern[p..][1..] == pattern[p + 1..];
    }
  }

  /** The segment between the star and the pattern position agrees with the text from the mark on. */
  ghost predicate Segment(pattern: string, text: string, star: int, mark: int, p: int, t: int) {
    && 0 <= star < p <= |pattern| && 0 <= mark <= t <= |text| && p - star - 1 == t - mark && pattern[star] == '*'
    && Literal(pattern[star + 1..p]) && Agrees(pattern[star + 1..p], text[mark..])
  }

  lemma SegmentStarts(pattern: string, text: string, star: nat, mark: nat)
    requires star < |pattern| && pattern[star] == '*' && mark <= |text|
    ensures Segment(pattern, text, star, mark, star + 1, mark)
  {}

  lemma SegmentGrows(pattern: string, text: string, star: nat, mark: nat, p: nat, t: nat)
    requires Segment(pattern, text, star, mark, p, t) && p < |pattern| && t < |text|
    requires pattern[p] != '*' && pattern[p] == LowerAscii(text[t])
    ensures Segment(pattern, text, star, mark, p + 1, t + 1)
  {
    assert pattern[star + 1..p + 1] == pattern[star + 1..p] + [pattern[p]];
    assert text[mark..][t - mark] == text[t];
  }

  /** What is left of both is matched by one character, or cannot match. */
  lemma OneCharacter(pattern: string, text: string, p: nat, t: nat)
    requires p <= |pattern| && t < |text| && (p < |pattern| ==> pattern[p] != '*')
    ensures Matches(pattern[p..], text[t..]) <==>
              p < |pattern| && pattern[p] == LowerAscii(text[t]) && Matches(pattern[p + 1..], text[t + 1..])
  {}

  const NPOS := -1

  /** The matcher as written: one pass over the text that remembers the last star only. */
  method GlobMatch(pattern: string, text: string) returns (matched: bool)
    ensures matched <==> Matches(pattern, text)
  {
    hide Matches, Literal, Agrees;
    var p, t, star, mark := 0, 0, NPOS, 0;
    assert pattern[0..] == pattern && text[0..] == text;
    while t < |text|
      invariant 0 <= p <= |pattern| && 0 <= t <= |text| && 0 <= mark <= t && -1 <= star < p
      invariant star == NPOS ==> (Matches(pattern, text) <==> Matches(pattern[p..], text[t..]))
      invariant star != NPOS ==> Segment(pattern, text, star, mark, p, t)
      invariant star != NPOS ==> (Matches(pattern, text) <==> Matches(pattern[star..], text[mark..]))
      decreases |pattern| - star, |text| - mark, |text| - t
    {
      if p < |pattern| && pattern[p] == '*' {
        if star != NPOS { NextStarTakesOver(pattern, text, star, mark, p, t); }
        SegmentStarts(pattern, text, p, t);
        star := p;
        p := p + 1;
        mark := t;
      } else if p < |pattern| && pattern[p] == LowerAscii(text[t]) {
        OneCharacter(pattern, text, p, t);
        if star != NPOS { SegmentGrows(pattern, text, star, mark, p, t); }
        p := p + 1;
        t := t + 1;
      } else if star != NPOS {
        MismatchMovesMark(pattern, text, star, mark, p, t);
        SegmentStarts(pattern, text, star, mark + 1);
        p := star + 1;
        mark := mark + 1;
        t := mark;
      } else {
        OneCharacter(pattern, text, p, t);
        return false;
      }
    }
    ghost var q := p;
    assert text[t..] == [];
    if star != NPOS { StarAtEnd(pattern, text, star, mark, p); }
    while p < |pattern| && pattern[p] == '*'
      invariant q <= p <= |pattern|
      invariant forall i :: q <= i < p ==> pattern[i] == '*'
    {
      p := p + 1;
    }
    StarsMatchNothing(pattern, q, p);
    return p == |pattern|;
  }

  /** At the end of the text no later mark can do better than the current one. */
  lemma {:induction false} StarAtEnd(pattern: string, text: string, star: nat, mark: nat, p: nat)
    requires star < p <= |pattern| && mark <= |text| && pattern[star] == '*'
    requires Literal(pattern[star + 1..p]) && p - star - 1 == |text| - mark
    requires Agrees(pattern[star + 1..p], text[mark..])
    ensures Matches(pattern[star..], text[mark..]) <==> Matches(pattern[p..], [])
  {
    var seg := pattern[star + 1..p];
    assert pattern[star..][1..] == seg + pattern[p..];
    LiteralPrefix(seg, pattern[p..], text[mark..]);
    assert text[mark..][|seg|..] == [];
    if Matches(pattern[star..], text[mark..]) {
      var k := StarSkips(pattern[star..], text[mark..]);
      LiteralPrefix(seg, pattern[p..], text[mark..][k..]);
      assert k == 0;
      assert text[mark..][k..][|seg|..] == [];
    }
    if Matches(pattern[p..], []) {
      assert text[mark..][0..] == text[mark..];
      StarAbsorbs(pattern[star..], text[mark..], 0);
    }
  }
}
