/**
 * The pieces of the Java platform's string handling that lock-name resolution relies on:
 * `String.contains`, `String.indexOf`, `String.replace(CharSequence, CharSequence)`,
 * `String.split("\\.")`, `Character.isWhitespace` (through `StringUtils.isBlank`),
 * the regex notion of a line terminator, and `Long.toString`.
 */
module JavaText {
  import opened Results

  /** Java `long`. */
  type Long = x: int | -0x8000_0000_0000_0000 <= x < 0x8000_0000_0000_0000

  // ---------------------------------------------------------------- searching

  predicate OccursAt(s: string, t: string, i: nat) {
    i + |t| <= |s| && s[i..i + |t|] == t
  }

  /** `s.contains(t)` */
  predicate Contains(s: string, t: string) {
    exists i: nat :: i <= |s| && OccursAt(s, t, i)
  }

  /** `s.indexOf(t, from)`: the first occurrence of `t` at or after `from`. */
  function IndexOf(s: string, t: string, from: nat): (r: Option<nat>)
    ensures r.Some? ==> from <= r.value && OccursAt(s, t, r.value)
    decreases |s| - from
  {
    if from + |t| > |s| then None
    else if OccursAt(s, t, from) then Some(from)
    else IndexOf(s, t, from + 1)
  }

  /** `indexOf` finds the first occurrence: there is none between the start and the result, nor after the start when it finds nothing. */
  lemma {:induction false} IndexOfIsFirst(s: string, t: string, from: nat)
    ensures IndexOf(s, t, from).Some? ==> forall i: nat :: from <= i < IndexOf(s, t, from).value ==> !OccursAt(s, t, i)
    ensures IndexOf(s, t, from).None? ==> forall i: nat :: from <= i ==> !OccursAt(s, t, i)
    decreases |s| - from
  {
    if from + |t| <= |s| && !OccursAt(s, t, from) {
      IndexOfIsFirst(s, t, from + 1);
    }
  }

  // ---------------------------------------------------------------- replacing

  /**
   * `s.replace(t, r)` for a non-empty target: scanning from the left, every occurrence of `t`
   * that does not overlap an occurrence already replaced is replaced by `r`; the text `r`
   * itself is never rescanned.
   */
  function ReplaceAll(s: string, t: string, r: string): string
    requires |t| > 0
  {
    ReplaceFrom(s, t, r, 0)
  }

  /** The scan of `replace` from position `k` of `s` on. */
  function ReplaceFrom(s: string, t: string, r: string, k: nat): string
    requires |t| > 0 && k <= |s|
    decreases |s| - k
  {
    if k + |t| > |s| then s[k..]
    else if OccursAt(s, t, k) then r + ReplaceFrom(s, t, r, k + |t|)
    else [s[k]] + ReplaceFrom(s, t, r, k + 1)
  }

  /** `indexOf` moves past a position that is not its result. */
  lemma IndexOfSkip(s: string, t: string, k: nat, i: nat)
    requires IndexOf(s, t, k) == Some(i) && k < i
    ensures k + |t| <= |s| && !OccursAt(s, t, k) && IndexOf(s, t, k + 1) == Some(i)
  {
  }

  /** The scan keeps a character that starts no occurrence. */
  lemma ReplaceFromSkip(s: string, t: string, r: string, k: nat)
    requires |t| > 0 && k + |t| <= |s| && !OccursAt(s, t, k)
    ensures ReplaceFrom(s, t, r, k) == [s[k]] + ReplaceFrom(s, t, r, k + 1)
  {
  }

  lemma ConsRegroup(s: string, k: nat, i: nat, r: string, tail: string)
    requires k < i <= |s|
    ensures [s[k]] + (s[k + 1..i] + r + tail) == s[k..i] + r + tail
  {
    assert [s[k]] + s[k + 1..i] == s[k..i];
  }

  /**
   * `replace` is the indexOf loop of the JDK: the text before the next occurrence is kept, the
   * occurrence is replaced, and the search resumes after it.
   */
  lemma {:induction false} ReplaceFromAtNext(s: string, t: string, r: string, k: nat, i: nat)
    requires |t| > 0 && k <= |s| && IndexOf(s, t, k) == Some(i)
    ensures ReplaceFrom(s, t, r, k) == s[k..i] + r + ReplaceFrom(s, t, r, i + |t|)
    decreases i - k
  {
    if k < i {
      IndexOfSkip(s, t, k, i);
      ReplaceFromSkip(s, t, r, k);
      ReplaceFromAtNext(s, t, r, k + 1, i);
      ConsRegroup(s, k, i, r, ReplaceFrom(s, t, r, i + |t|));
    } else {
      assert s[k..i] == [];
    }
  }

  /** When nothing occurs from `k` on, the rest of the string is kept as it is. */
  lemma {:induction false} ReplaceFromNoOccurrence(s: string, t: string, r: string, k: nat)
    requires |t| > 0 && k <= |s| && IndexOf(s, t, k).None?
    ensures ReplaceFrom(s, t, r, k) == s[k..]
    decreases |s| - k
  {
    if k + |t| <= |s| {
      ReplaceFromNoOccurrence(s, t, r, k + 1);
      assert [s[k]] + s[k + 1..] == s[k..];
    }
  }

  /** The whole of `replace` as the indexOf loop: keep the text before the first occurrence, replace it, go on after it. */
  lemma ReplaceAllAtFirst(s: string, t: string, r: string, i: nat)
    requires |t| > 0 && IndexOf(s, t, 0) == Some(i)
    ensures ReplaceAll(s, t, r) == s[..i] + r + ReplaceFrom(s, t, r, i + |t|)
  {
    ReplaceFromAtNext(s, t, r, 0, i);
  }

  /** A string that does not contain the target comes back unchanged. */
  lemma ReplaceAllAbsent(s: string, t: string, r: string)
    requires |t| > 0 && !Contains(s, t)
    ensures ReplaceAll(s, t, r) == s
  {
    ReplaceFromNoOccurrence(s, t, r, 0);
  }

  // ---------------------------------------------------------------- characters

  /** The line terminators that the regex `.` does not match (no DOTALL, no UNIX_LINES). */
  predicate IsLineTerminator(c: char) {
    c == '\n' || c == '\r' || c == '\U{0085}' || c == '\U{2028}' || c == '\U{2029}'
  }

  /**
   * `Character.isWhitespace`: space, line and paragraph separators other than the no-break
   * spaces U+00A0, U+2007 and U+202F, and the controls U+0009..U+000D, U+001C..U+001F.
   */
  predicate IsWhitespace(c: char) {
    || c == ' ' || c == '\U{1680}' || ('\U{2000}' <= c <= '\U{2006}') || ('\U{2008}' <= c <= '\U{200A}')
    || c == '\U{205F}' || c == '\U{3000}' || c == '\U{2028}' || c == '\U{2029}'
    || ('\t' <= c <= '\r') || ('\U{001C}' <= c <= '\U{001F}')
  }

  /** `StringUtils.isBlank` on a non-null string: empty or whitespace only. */
  predicate IsBlank(s: string) {
    forall k :: 0 <= k < |s| ==> IsWhitespace(s[k])
  }

  // ---------------------------------------------------------------- splitting

  /** `s` cut at every `.`, keeping every piece, empty ones included. */
  function SplitOnDots(s: string): (parts: seq<string>)
    ensures |parts| >= 1
  {
    if s == [] then [[]]
    else
      var rest := SplitOnDots(s[1..]);
      if s[0] == '.' then [[]] + rest
      else [[s[0]] + rest[0]] + rest[1..]
  }

  /** No piece contains a dot. */
  lemma {:induction false} SplitOnDotsPieces(s: string)
    ensures forall k :: 0 <= k < |SplitOnDots(s)| ==> '.' !in SplitOnDots(s)[k]
  {
    if s != [] {
      SplitOnDotsPieces(s[1..]);
      var rest := SplitOnDots(s[1..]);
      if s[0] == '.' {
        assert forall k :: 1 <= k < |SplitOnDots(s)| ==> SplitOnDots(s)[k] == rest[k - 1];
      } else {
        assert forall k :: 1 <= k < |SplitOnDots(s)| ==> SplitOnDots(s)[k] == rest[k];
      }
    }
  }

  /** The pieces glued back with `.` between them. */
  function JoinWithDots(parts: seq<string>): string
    requires |parts| >= 1
  {
    if |parts| == 1 then parts[0] else parts[0] + "." + JoinWithDots(parts[1..])
  }

  /** Cutting at the dots loses nothing: gluing the pieces back gives the string. */
  lemma {:induction false} JoinSplitOnDots(s: string)
    ensures JoinWithDots(SplitOnDots(s)) == s
  {
    if s != [] {
      var rest := SplitOnDots(s[1..]);
      JoinSplitOnDots(s[1..]);
      if s[0] == '.' {
        assert ([[]] + rest)[1..] == rest;
      } else {
        var parts := [[s[0]] + rest[0]] + rest[1..];
        if |rest| == 1 {
          assert JoinWithDots(parts) == [s[0]] + rest[0];
        } else {
          assert parts[1..] == rest[1..];
          assert JoinWithDots(rest) == rest[0] + "." + JoinWithDots(rest[1..]);
        }
      }
      assert s == [s[0]] + s[1..];
    }
  }

  /** Every piece is empty exactly when the string is made of dots only. */
  lemma {:induction false} SplitOnDotsAllEmpty(s: string)
    ensures (forall k :: 0 <= k < |SplitOnDots(s)| ==> SplitOnDots(s)[k] == [])
            <==> (forall k :: 0 <= k < |s| ==> s[k] == '.')
  {
    if s != [] {
      SplitOnDotsAllEmpty(s[1..]);
      var rest := SplitOnDots(s[1..]);
      if s[0] == '.' {
        var parts := SplitOnDots(s);
        assert parts == [[]] + rest;
        assert (forall k :: 0 <= k < |parts| ==> parts[k] == []) <==> (forall k :: 0 <= k < |rest| ==> rest[k] == []) by {
          assert parts[0] == [];
          assert forall k :: 1 <= k < |parts| ==> parts[k] == rest[k - 1];
          assert forall k :: 0 <= k < |rest| ==> rest[k] == parts[k + 1];
          if forall k :: 0 <= k < |rest| ==> rest[k] == [] {
            forall k | 0 <= k < |parts| ensures parts[k] == [] {
              if k > 0 { assert parts[k] == rest[k - 1]; }
            }
          }
        }
        assert (forall k :: 0 <= k < |s| ==> s[k] == '.') <==> (forall k :: 0 <= k < |s[1..]| ==> s[1..][k] == '.') by {
          assert forall k :: 1 <= k < |s| ==> s[k] == s[1..][k - 1];
        }
      } else {
        assert SplitOnDots(s)[0] != [];
      }
    }
  }

  /** A string without dots is one piece. */
  lemma {:induction false} SplitOnDotsNoDot(a: string)
    requires '.' !in a
    ensures SplitOnDots(a) == [a]
  {
    if a != [] {
      SplitOnDotsNoDot(a[1..]);
      assert a == [a[0]] + a[1..];
    }
  }

  /** The text before the first dot is the first piece; the rest is cut independently. */
  lemma {:induction false} SplitOnDotsAfter(a: string, c: string)
    requires '.' !in a
    ensures SplitOnDots(a + "." + c) == [a] + SplitOnDots(c)
  {
    if a == [] {
      assert a + "." + c == ['.'] + c;
      assert (['.'] + c)[1..] == c;
    } else {
      SplitOnDotsAfter(a[1..], c);
      assert (a + "." + c)[1..] == a[1..] + "." + c;
      assert a == [a[0]] + a[1..];
    }
  }

  /** Dot-free pieces glued with `.` are cut back into the same pieces. */
  lemma {:induction false} SplitJoin(parts: seq<string>)
    requires |parts| >= 1
    requires forall k :: 0 <= k < |parts| ==> '.' !in parts[k]
    ensures SplitOnDots(JoinWithDots(parts)) == parts
  {
    if |parts| == 1 {
      SplitOnDotsNoDot(parts[0]);
    } else {
      SplitJoin(parts[1..]);
      SplitOnDotsAfter(parts[0], JoinWithDots(parts[1..]));
      assert parts == [parts[0]] + parts[1..];
    }
  }

  /** Java's `split` with limit 0 removes the trailing empty strings. */
  function DropTrailingEmpty(parts: seq<string>): (r: seq<string>)
    ensures |r| <= |parts| && r == parts[..|r|]
    ensures r == [] || r[|r| - 1] != []
    ensures forall k :: |r| <= k < |parts| ==> parts[k] == []
  {
    if parts != [] && parts[|parts| - 1] == [] then DropTrailingEmpty(parts[..|parts| - 1])
    else parts
  }

  /**
   * `s.split("\\.")`: without any `.` the result is the string alone (even when it is empty);
   * otherwise the pieces between the dots, with the trailing empty ones removed.
   */
  function SplitDot(s: string): (r: seq<string>)
  {
    if '.' !in s then [s] else DropTrailingEmpty(SplitOnDots(s))
  }

  /** `split` on a string with a dot yields no element exactly when the string is all dots. */
  lemma SplitDotEmpty(s: string)
    requires '.' in s
    ensures SplitDot(s) == [] <==> forall k :: 0 <= k < |s| ==> s[k] == '.'
  {
    var parts := SplitOnDots(s);
    SplitOnDotsAllEmpty(s);
  }

  // ---------------------------------------------------------------- numbers

  function DigitChar(d: nat): (c: char)
    requires d < 10
    ensures '0' <= c <= '9'
  {
    (48 + d) as char
  }

  /** The decimal digits of a natural number, most significant first, without leading zeros. */
  function Digits(n: nat): (r: string)
    ensures |r| >= 1 && (|r| > 1 ==> r[0] != '0')
    ensures forall k :: 0 <= k < |r| ==> '0' <= r[k] <= '9'
  {
    if n < 10 then [DigitChar(n)] else Digits(n / 10) + [DigitChar(n % 10)]
  }

  /** `Long.toString(n)`. */
  function DecimalString(n: Long): string {
    if n < 0 then "-" + Digits(-(n as int)) else Digits(n)
  }

  function ParseDigits(s: string): nat
    requires forall k :: 0 <= k < |s| ==> '0' <= s[k] <= '9'
  {
    if s == [] then 0 else ParseDigits(s[..|s| - 1]) * 10 + (s[|s| - 1] as int - 48)
  }

  /** `Long.parseLong`, on the strings `Long.toString` produces. */
  function ParseDecimal(s: string): int
    requires |s| >= 1
    requires forall k :: (if s[0] == '-' then 1 else 0) <= k < |s| ==> '0' <= s[k] <= '9'
  {
    if s[0] == '-' then -(ParseDigits(s[1..]) as int) else ParseDigits(s)
  }

  lemma {:induction false} ParseDigitsOfDigits(n: nat)
    ensures ParseDigits(Digits(n)) == n
  {
    if n >= 10 {
      var d := Digits(n);
      ParseDigitsOfDigits(n / 10);
      assert d[..|d| - 1] == Digits(n / 10);
    }
  }

  /** The decimal form of a `long` reads back as the same number. */
  lemma DecimalStringRoundTrip(n: Long)
    ensures |DecimalString(n)| >= 1
    ensures forall k :: (if DecimalString(n)[0] == '-' then 1 else 0) <= k < |DecimalString(n)| ==> '0' <= DecimalString(n)[k] <= '9'
    ensures ParseDecimal(DecimalString(n)) == n
  {
    if n < 0 {
      ParseDigitsOfDigits(-(n as int));
      assert DecimalString(n)[1..] == Digits(-(n as int));
    } else {
      ParseDigitsOfDigits(n);
    }
  }
}
