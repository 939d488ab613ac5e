/**
 * The placeholder pattern `\{(.*?)}` and the way `Matcher.find` walks a string with it.
 *
 * A match opens at a `{` and closes at the first `}` after it; the lazy group may not contain a
 * line terminator, so a `{` whose first `}` lies beyond a line break does not match at all and the
 * search moves on to the next position. Each `find` resumes where the previous match ended, so the
 * matches come out left to right and never overlap.
 */
module Placeholders {
  import opened Results
  import opened JavaText

  /** The `}` at `j` closes a group whose content starts at `k`: nothing in between is `}` or a line break. */
  predicate ClosesAt(s: string, k: nat, j: nat) {
    k <= j < |s| && s[j] == '}' && forall q :: k <= q < j ==> s[q] != '}' && !IsLineTerminator(s[q])
  }

  /** `s[p..j + 1]` is a match of the pattern. */
  predicate MatchAt(s: string, p: nat, j: nat) {
    p < |s| && s[p] == '{' && ClosesAt(s, p + 1, j)
  }

  /** One match: the opening brace at `open`, the closing one at `close`. */
  datatype Match = Match(open: nat, close: nat)

  predicate IsMatch(s: string, m: Match) {
    MatchAt(s, m.open, m.close)
  }

  /** The match lies inside the string, its closing brace after its opening one. */
  predicate InBounds(s: string, m: Match) {
    m.open < m.close < |s|
  }

  /** `matcher.group()`: the whole match, braces included. */
  function Text(s: string, m: Match): (t: string)
    requires InBounds(s, m)
    ensures |t| >= 2
  {
    s[m.open..m.close + 1]
  }

  /** `matcher.group(1)`: what lies between the braces. */
  function Field(s: string, m: Match): string
    requires InBounds(s, m)
  {
    s[m.open + 1..m.close]
  }

  /** The text of a match is its field between braces; the field holds no `}`. */
  lemma TextIsBracedField(s: string, m: Match)
    requires IsMatch(s, m)
    ensures Text(s, m) == "{" + Field(s, m) + "}"
    ensures '}' !in Field(s, m)
  {
  }

  /** No match starts at or after `from`. */
  ghost predicate NoMatchFrom(s: string, from: nat) {
    forall p: nat, j: nat :: from <= p ==> !MatchAt(s, p, j)
  }

  /** `m` is the match `find` returns when it starts searching at `from`: the leftmost one. */
  ghost predicate Leftmost(s: string, from: nat, m: Match) {
    IsMatch(s, m) && from <= m.open && forall p: nat, j: nat :: from <= p < m.open ==> !MatchAt(s, p, j)
  }

  /** The closing brace for content starting at `k`, if the group can close. */
  function CloseFrom(s: string, k: nat): (r: Option<nat>)
    ensures r.Some? ==> ClosesAt(s, k, r.value)
    ensures r.None? ==> forall j: nat :: !ClosesAt(s, k, j)
    decreases |s| - k
  {
    if k >= |s| then None
    else if s[k] == '}' then Some(k)
    else if IsLineTerminator(s[k]) then None
    else ClosesAfter(s, k); CloseFrom(s, k + 1)
  }

  /** When the content does not end at `k`, it closes exactly where the content from `k + 1` does. */
  lemma ClosesAfter(s: string, k: nat)
    requires k < |s| && s[k] != '}' && !IsLineTerminator(s[k])
    ensures forall j: nat :: ClosesAt(s, k, j) <==> ClosesAt(s, k + 1, j)
  {
  }

  /** A group has at most one closing brace. */
  lemma ClosingIsUnique(s: string, k: nat, j1: nat, j2: nat)
    requires ClosesAt(s, k, j1) && ClosesAt(s, k, j2)
    ensures j1 == j2
  {
  }

  /** One call of `Matcher.find` starting the search at `from`. */
  function FindFrom(s: string, from: nat): (r: Option<Match>)
    ensures r.Some? ==> from <= r.value.open && InBounds(s, r.value)
    decreases |s| - from
  {
    if from >= |s| then None
    else if s[from] == '{' then
      match CloseFrom(s, from + 1)
      case Some(j) => Some(Match(from, j))
      case None => FindFrom(s, from + 1)
    else FindFrom(s, from + 1)
  }

  /** `find` returns the leftmost match from where it starts, and nothing when there is none. */
  lemma {:induction false} FindFromIsLeftmost(s: string, from: nat)
    ensures FindFrom(s, from).Some? ==> Leftmost(s, from, FindFrom(s, from).value)
    ensures FindFrom(s, from).None? ==> NoMatchFrom(s, from)
    decreases |s| - from
  {
    if from < |s| {
      FindFromIsLeftmost(s, from + 1);
    }
  }

  /** The leftmost match from a given position is unique. */
  lemma LeftmostIsUnique(s: string, from: nat, m1: Match, m2: Match)
    requires Leftmost(s, from, m1) && Leftmost(s, from, m2)
    ensures m1 == m2
  {
    assert MatchAt(s, m1.open, m1.close) && MatchAt(s, m2.open, m2.close);
    assert m1.open == m2.open;
    ClosingIsUnique(s, m1.open + 1, m1.close, m2.close);
  }

  /**
   * What the successive `find` calls from `from` return: the leftmost match, then whatever the calls
   * resuming just past it return, until nothing matches any more.
   */
  ghost predicate FindSequence(s: string, from: nat, ms: seq<Match>)
    decreases |ms|
  {
    if |ms| == 0 then NoMatchFrom(s, from)
    else Leftmost(s, from, ms[0]) && FindSequence(s, ms[0].close + 1, ms[1..])
  }

  /** All matches `while (matcher.find())` visits, resuming at `from`: ordered and disjoint. */
  function MatchesFrom(s: string, from: nat): (ms: seq<Match>)
    ensures forall i :: 0 <= i < |ms| ==> InBounds(s, ms[i]) && from <= ms[i].open
    decreases |s| - from
  {
    match FindFrom(s, from)
    case None => []
    case Some(m) => [m] + MatchesFrom(s, m.close + 1)
  }

  /** The matches come out left to right and do not overlap. */
  lemma {:induction false} MatchesAreOrdered(s: string, from: nat)
    ensures var ms := MatchesFrom(s, from);
            forall i, k :: 0 <= i < k < |ms| ==> ms[i].close < ms[k].open
    decreases |s| - from
  {
    var found := FindFrom(s, from);
    if found.Some? {
      var m := found.value;
      MatchesAreOrdered(s, m.close + 1);
      var ms := MatchesFrom(s, from);
      assert ms == [m] + MatchesFrom(s, m.close + 1);
      forall i, k | 0 <= i < k < |ms|
        ensures ms[i].close < ms[k].open
      {
        if i > 0 {
          assert ms[i] == MatchesFrom(s, m.close + 1)[i - 1];
        }
        assert ms[k] == MatchesFrom(s, m.close + 1)[k - 1];
      }
    }
  }

  /** The matches of the whole string, in the order the loop visits them. */
  function Matches(s: string): seq<Match> {
    MatchesFrom(s, 0)
  }

  /** `MatchesFrom` is what the successive `find` calls return. */
  lemma {:induction false} MatchesFromIsFindSequence(s: string, from: nat)
    ensures FindSequence(s, from, MatchesFrom(s, from))
    decreases |s| - from
  {
    var found := FindFrom(s, from);
    FindFromIsLeftmost(s, from);
    if found.Some? {
      MatchesFromIsFindSequence(s, found.value.close + 1);
      assert MatchesFrom(s, from)[1..] == MatchesFrom(s, found.value.close + 1);
    }
  }

  /** Successive `find` calls have exactly one possible outcome: the one `MatchesFrom` computes. */
  lemma {:induction false} FindSequenceIsUnique(s: string, from: nat, ms: seq<Match>)
    requires FindSequence(s, from, ms)
    ensures ms == MatchesFrom(s, from)
    decreases |ms|
  {
    var found := FindFrom(s, from);
    FindFromIsLeftmost(s, from);
    if |ms| != 0 {
      assert MatchAt(s, ms[0].open, ms[0].close);
      assert found.Some?;
      LeftmostIsUnique(s, from, ms[0], found.value);
      FindSequenceIsUnique(s, ms[0].close + 1, ms[1..]);
      assert ms == [ms[0]] + ms[1..];
    }
  }

  /** A string without `{` has no placeholder. */
  lemma NoBraceNoMatch(s: string)
    requires '{' !in s
    ensures Matches(s) == []
  {
    FindFromIsLeftmost(s, 0);
  }

  /** `{}` matches, with an empty field. */
  lemma EmptyBracesMatch()
    ensures Matches("{}") == [Match(0, 1)]
    ensures Field("{}", Match(0, 1)) == ""
  {
    assert FindFrom("{}", 0) == Some(Match(0, 1));
    assert FindFrom("{}", 2) == None;
  }

  /** Every match the loop visits is a match of the pattern. */
  lemma {:induction false} MatchesAreMatches(s: string, from: nat)
    ensures forall i :: 0 <= i < |MatchesFrom(s, from)| ==> IsMatch(s, MatchesFrom(s, from)[i])
    decreases |s| - from
  {
    FindFromIsLeftmost(s, from);
    var found := FindFrom(s, from);
    if found.Some? {
      MatchesAreMatches(s, found.value.close + 1);
      assert MatchesFrom(s, from) == [found.value] + MatchesFrom(s, found.value.close + 1);
    }
  }

  /**
   * A `{` with no `}` after it on its line is unterminated: no match opens there, so it stays in
   * the name verbatim, whatever matches the rest of the string holds.
   */
  lemma UnterminatedBrace(s: string, p: nat)
    requires p < |s| && s[p] == '{' && CloseFrom(s, p + 1).None?
    ensures forall i :: 0 <= i < |Matches(s)| ==> Matches(s)[i].open != p
  {
    MatchesAreMatches(s, 0);
  }

  /** A string in which no `{` is terminated on its line has no placeholder. */
  lemma NoTerminatedBraceNoMatch(s: string)
    requires forall p :: 0 <= p < |s| && s[p] == '{' ==> CloseFrom(s, p + 1).None?
    ensures Matches(s) == []
  {
    MatchesAreMatches(s, 0);
  }
}
