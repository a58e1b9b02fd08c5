/**
 `toSnakeCase` of packages/logging/src/helpers.ts: what its regular expression matches, alternative by
 alternative in the order of a backtracking matcher, and what the joined matches keep of the input.
 The expression looks behind only at characters of the match, so a search can go on in the rest of
 the string.
 */
module SnakeCase {
  import opened Prelude

  /** `\w` */
  predicate IsWord(c: char) { IsAlnum(c) || c == '_' }

  function UpperRun(s: string): (n: nat)
    ensures n <= |s| && (n < |s| ==> !IsUpper(s[n])) && forall i :: 0 <= i < n ==> IsUpper(s[i])
  {
    if s != "" && IsUpper(s[0]) then 1 + UpperRun(s[1..]) else 0
  }

  function LowerRun(s: string): (n: nat)
    ensures n <= |s| && (n < |s| ==> !IsLower(s[n])) && forall i :: 0 <= i < n ==> IsLower(s[i])
  {
    if s != "" && IsLower(s[0]) then 1 + LowerRun(s[1..]) else 0
  }

  function DigitRun(s: string): (n: nat)
    ensures n <= |s| && (n < |s| ==> !IsDigit(s[n])) && forall i :: 0 <= i < n ==> IsDigit(s[i])
  {
    if s != "" && IsDigit(s[0]) then 1 + DigitRun(s[1..]) else 0
  }

  /** `\b` behind the first `n` characters. */
  predicate Boundary(s: string, n: nat)
    requires 0 < n <= |s|
  {
    IsWord(s[n - 1]) != (n < |s| && IsWord(s[n]))
  }

  /** `(?=[A-Z][a-z]+[0-9]*|\b)` behind the first `n` characters. */
  predicate Lookahead(s: string, n: nat)
    requires 0 < n <= |s|
  {
    (n + 1 < |s| && IsUpper(s[n]) && IsLower(s[n + 1])) || Boundary(s, n)
  }

  /** `[A-Z]{2,}` takes all it can, and gives back one letter at a time until the lookahead holds. */
  function Acronym(s: string, n: nat): (m: nat)
    requires n <= UpperRun(s)
    ensures m <= n && m != 1
    ensures m != 0 ==> Lookahead(s, m)
    ensures forall k :: 2 <= k <= n && m < k ==> !Lookahead(s, k)
  {
    if n < 2 then 0 else if Lookahead(s, n) then n else Acronym(s, n - 1)
  }

  /** `[A-Z]?[a-z]+[0-9]*` */
  function Capitalized(s: string): (n: nat)
    ensures n <= |s|
  {
    var p := if s != "" && IsUpper(s[0]) then 1 else 0;
    var l := LowerRun(s[p..]);
    if l == 0 then 0 else p + l + DigitRun(s[p + l..])
  }

  /** The length of the match at the start of `s`: the first alternative that matches; 0 for none. */
  function MatchLength(s: string): (n: nat)
    ensures n <= |s|
  {
    var acronym := Acronym(s, UpperRun(s));
    if acronym > 0 then acronym
    else if Capitalized(s) > 0 then Capitalized(s)
    else if s != "" && IsUpper(s[0]) then 1
    else DigitRun(s)
  }

  /** `str.match(/.../g)` */
  function Matches(s: string): seq<string>
    decreases |s|
  {
    if s == "" then []
    else if MatchLength(s) > 0 then [s[..MatchLength(s)]] + Matches(s[MatchLength(s)..])
    else Matches(s[1..])
  }

  function ToLower(c: char): char {
    if IsUpper(c) then ((c as int) + 32) as char else c
  }

  function Lowered(s: string): string {
    if s == "" then "" else [ToLower(s[0])] + Lowered(s[1..])
  }

  function LoweredAll(ws: seq<string>): seq<string> {
    if ws == [] then [] else [Lowered(ws[0])] + LoweredAll(ws[1..])
  }

  function Join(ws: seq<string>): string {
    if ws == [] then "" else if |ws| == 1 then ws[0] else ws[0] + ("_" + Join(ws[1..]))
  }

  function ToSnakeCase(s: string): string {
    if Matches(s) == [] then s else Join(LoweredAll(Matches(s)))
  }

  /** The ASCII letters and digits of a string, in lower case. */
  function Alnums(s: string): string {
    if s == "" then ""
    else
      var c := s[0];
      (if 'A' <= c <= 'Z' then ['a' + (c - 'A')] else if 'a' <= c <= 'z' || '0' <= c <= '9' then [c] else "")
      + Alnums(s[1..])
  }

  // ---------- what a match looks like ----------

  /** A word of the result: letters, then digits. */
  predicate IsSnakeWord(w: string) {
    w != "" && DigitRun(w[LowerRun(w)..]) == |w| - LowerRun(w)
  }

  lemma {:induction false} LoweredAt(s: string)
    ensures |Lowered(s)| == |s| && forall i :: 0 <= i < |s| ==> Lowered(s)[i] == ToLower(s[i])
    decreases |s|
  {
    if s != "" {
      LoweredAt(s[1..]);
      assert forall i :: 1 <= i < |s| ==> Lowered(s)[i] == Lowered(s[1..])[i - 1];
    }
  }

  lemma {:induction false} LowerRunIs(s: string, n: nat)
    requires n <= |s| && (n < |s| ==> !IsLower(s[n])) && forall i :: 0 <= i < n ==> IsLower(s[i])
    ensures LowerRun(s) == n
    decreases |s|
  {
    if n > 0 {
      LowerRunIs(s[1..], n - 1);
    }
  }

  lemma {:induction false} DigitRunIs(s: string, n: nat)
    requires n <= |s| && (n < |s| ==> !IsDigit(s[n])) && forall i :: 0 <= i < n ==> IsDigit(s[i])
    ensures DigitRun(s) == n
    decreases |s|
  {
    if n > 0 {
      DigitRunIs(s[1..], n - 1);
    }
  }

  lemma WordFromParts(w: string, k: nat)
    requires w != "" && k <= |w|
    requires forall i :: 0 <= i < k ==> IsLower(w[i])
    requires forall i :: k <= i < |w| ==> IsDigit(w[i])
    ensures IsSnakeWord(w)
  {
    LowerRunIs(w, k);
    DigitRunIs(w[k..], |w| - k);
  }

  lemma LoweredParts(s: string, n: nat, k: nat)
    requires 0 < n <= |s| && k <= n
    requires forall i :: 0 <= i < k ==> IsUpper(s[i]) || IsLower(s[i])
    requires forall i :: k <= i < n ==> IsDigit(s[i])
    ensures IsSnakeWord(Lowered(s[..n])) && forall i :: 0 <= i < n ==> IsAlnum(s[i])
  {
    LoweredAt(s[..n]);
    WordFromParts(Lowered(s[..n]), k);
  }

  lemma CapitalizedIsWord(s: string)
    requires Capitalized(s) > 0
    ensures IsAlnum(s[0]) && IsSnakeWord(Lowered(s[..Capitalized(s)]))
    ensures forall i :: 0 <= i < Capitalized(s) ==> IsAlnum(s[i])
  {
    var p := if IsUpper(s[0]) then 1 else 0;
    var l := LowerRun(s[p..]);
    assert forall i :: p <= i < p + l ==> s[i] == s[p..][i - p];
    assert forall i :: p + l <= i < Capitalized(s) ==> s[i] == s[p + l..][i - p - l];
    LoweredParts(s, Capitalized(s), p + l);
  }

  /** A match is letters and then digits, and there is one wherever a letter or digit begins. */
  lemma MatchIsWord(s: string)
    requires s != ""
    ensures MatchLength(s) > 0 <==> IsAlnum(s[0])
    ensures MatchLength(s) > 0 ==> IsSnakeWord(Lowered(s[..MatchLength(s)]))
    ensures forall i :: 0 <= i < MatchLength(s) ==> IsAlnum(s[i])
  {
    var n := MatchLength(s);
    if Acronym(s, UpperRun(s)) > 0 {
      LoweredParts(s, n, n);
    } else if Capitalized(s) > 0 {
      CapitalizedIsWord(s);
    } else if IsUpper(s[0]) {
      LoweredParts(s, 1, 1);
    } else if n > 0 {
      LoweredParts(s, n, 0);
    } else {
      assert s[0..] == s;
    }
  }

  // ---------- where words are cut ----------

  lemma {:induction false} UpperRunIs(s: string, n: nat)
    requires n <= |s| && (n < |s| ==> !IsUpper(s[n])) && forall i :: 0 <= i < n ==> IsUpper(s[i])
    ensures UpperRun(s) == n
    decreases |s|
  {
    if n > 0 {
      UpperRunIs(s[1..], n - 1);
    }
  }

  /** No match ends between two of the leading capitals, but in front of the last one of a word. */
  lemma {:induction false} AcronymBelow(s: string, u: nat, n: nat)
    requires n < u <= |s| && forall i :: 0 <= i < u ==> IsUpper(s[i])
    requires u < |s| ==> !IsUpper(s[u])
    ensures Acronym(s, n) == if n == u - 1 && n >= 2 && u < |s| && IsLower(s[u]) then n else 0
    decreases n
  {
    if n >= 2 {
      assert Lookahead(s, n) <==> n == u - 1 && u < |s| && IsLower(s[u]);
      if !Lookahead(s, n) {
        AcronymBelow(s, u, n - 1);
      }
    }
  }

  /**
   Two or more capitals are a word of their own in front of anything that is no word character. In
   front of a small letter the last one belongs to the next word; else they are cut one by one.
   */
  lemma AcronymIsCut(s: string, u: nat)
    requires 2 <= u <= |s| && forall i :: 0 <= i < u ==> 'A' <= s[i] <= 'Z'
    requires u < |s| ==> !('A' <= s[u] <= 'Z')
    ensures MatchLength(s) ==
            if u == |s| || !('a' <= s[u] <= 'z' || '0' <= s[u] <= '9' || s[u] == '_') then u
            else if 'a' <= s[u] <= 'z' then u - 1
            else 1
  {
    UpperRunIs(s, u);
    AcronymBelow(s, u, u - 1);
    assert LowerRun(s[1..]) == 0 by { assert s[1..][0] == s[1]; }
  }

  /** At most one capital, then small letters, then digits: all of them that there are. */
  lemma WordIsCut(s: string, p: nat, l: nat, d: nat)
    requires p <= 1 && l >= 1 && p + l + d <= |s|
    requires forall i :: 0 <= i < p ==> 'A' <= s[i] <= 'Z'
    requires forall i :: p <= i < p + l ==> 'a' <= s[i] <= 'z'
    requires forall i :: p + l <= i < p + l + d ==> '0' <= s[i] <= '9'
    requires p + l < |s| ==> !('a' <= s[p + l] <= 'z')
    requires p + l + d < |s| ==> !('0' <= s[p + l + d] <= '9')
    ensures MatchLength(s) == p + l + d
  {
    UpperRunIs(s, p);
    LowerRunIs(s[p..], l);
    DigitRunIs(s[p + l..], d);
  }

  /** A capital with neither a capital nor a small letter behind it, and digits in front of everything. */
  lemma LoneIsCut(s: string, d: nat)
    requires d <= |s| && s != "" && forall i :: 0 <= i < d ==> '0' <= s[i] <= '9'
    requires d < |s| ==> !('0' <= s[d] <= '9')
    ensures 'A' <= s[0] <= 'Z' && (|s| > 1 ==> !('A' <= s[1] <= 'Z' || 'a' <= s[1] <= 'z')) ==> MatchLength(s) == 1
    ensures d > 0 ==> MatchLength(s) == d
  {
    if 'A' <= s[0] <= 'Z' && (|s| > 1 ==> !('A' <= s[1] <= 'Z' || 'a' <= s[1] <= 'z')) {
      UpperRunIs(s, 1);
      LowerRunIs(s[1..], 0);
    }
    if d > 0 {
      UpperRunIs(s, 0);
      assert s[0..] == s;
      LowerRunIs(s, 0);
      DigitRunIs(s, d);
    }
  }

  // ---------- nothing is lost ----------

  lemma {:induction false} AlnumsAppend(a: string, b: string)
    ensures Alnums(a + b) == Alnums(a) + Alnums(b)
    decreases |a|
  {
    if a == "" {
      assert a + b == b;
    } else {
      var ab := a + b;
      assert ab[0] == a[0] && ab[1..] == a[1..] + b;
      AlnumsAppend(a[1..], b);
      Assoc(if IsAlnum(a[0]) then [ToLower(a[0])] else "", Alnums(a[1..]), Alnums(b));
    }
  }

  lemma {:induction false} AlnumsOfAlnum(w: string)
    requires forall i :: 0 <= i < |w| ==> IsAlnum(w[i])
    ensures Alnums(w) == Lowered(w) && Alnums(Lowered(w)) == Lowered(w)
    decreases |w|
  {
    if w != "" {
      AlnumsOfAlnum(w[1..]);
      assert Lowered(w)[1..] == Lowered(w[1..]);
    }
  }

  function Concat(ws: seq<string>): string {
    if ws == [] then "" else ws[0] + Concat(ws[1..])
  }

  lemma SeparatedAlnums(w: string, separator: string, rest: string)
    requires Alnums(separator) == ""
    ensures Alnums(w + (separator + rest)) == Alnums(w) + Alnums(rest)
  {
    AlnumsAppend(separator, rest);
    AlnumsAppend(w, separator + rest);
  }

  lemma {:induction false} JoinAlnums(ws: seq<string>)
    requires forall i :: 0 <= i < |ws| ==> Alnums(ws[i]) == ws[i]
    ensures Alnums(Join(ws)) == Concat(ws)
    decreases |ws|
  {
    if |ws| == 1 {
      assert Concat(ws) == ws[0] + Concat([]) == ws[0];
    } else if ws != [] {
      JoinAlnums(ws[1..]);
      assert Alnums("_") == "";
      SeparatedAlnums(ws[0], "_", Join(ws[1..]));
    }
  }

  /** The words of the result: the matches in lower case. */
  function Words(s: string): seq<string> {
    LoweredAll(Matches(s))
  }

  predicate AreWords(ws: seq<string>) {
    forall i :: 0 <= i < |ws| ==> IsSnakeWord(ws[i]) && Alnums(ws[i]) == ws[i]
  }

  lemma MatchedAlnums(a: string, b: string)
    requires forall i :: 0 <= i < |a| ==> IsAlnum(a[i])
    ensures Alnums(a + b) == Lowered(a) + Alnums(b)
    ensures Alnums(Lowered(a)) == Lowered(a)
  {
    AlnumsAppend(a, b);
    AlnumsOfAlnum(a);
  }

  lemma ConcatCons(w: string, ws: seq<string>)
    ensures Concat([w] + ws) == w + Concat(ws)
  {
    assert ([w] + ws)[1..] == ws;
  }

  predicate AllAlnum(w: string) {
    forall i :: 0 <= i < |w| ==> IsAlnum(w[i])
  }

  /** Whatever the expression, a scan that starts a match at every letter or digit and skips the rest. */
  predicate Cuts(s: string, ms: seq<string>)
    decreases |s|
  {
    if s == "" then ms == []
    else if IsAlnum(s[0]) then
      ms != [] && ms[0] != "" && ms[0] <= s && AllAlnum(ms[0]) && IsSnakeWord(Lowered(ms[0])) &&
      Cuts(s[|ms[0]|..], ms[1..])
    else Cuts(s[1..], ms)
  }

  lemma {:induction false} MatchesCut(s: string)
    ensures Cuts(s, Matches(s))
    decreases |s|
  {
    if s != "" {
      var n := MatchLength(s);
      MatchIsWord(s);
      MatchesCut(s[if n > 0 then n else 1..]);
      if n > 0 {
        assert Matches(s)[0] == s[..n] && Matches(s)[1..] == Matches(s[n..]);
      }
    }
  }

  lemma SpellFirst(w: string, rest: string, later: seq<string>)
    requires AllAlnum(w) && Concat(later) == Alnums(rest)
    ensures Concat([Lowered(w)] + later) == Alnums(w + rest) && Alnums(Lowered(w)) == Lowered(w)
  {
    ConcatCons(Lowered(w), later);
    MatchedAlnums(w, rest);
  }

  lemma {:induction false} CutsSpell(s: string, ms: seq<string>)
    requires Cuts(s, ms)
    ensures Concat(LoweredAll(ms)) == Alnums(s) && AreWords(LoweredAll(ms))
    decreases |s|
  {
    if s != "" && IsAlnum(s[0]) {
      var w, rest := ms[0], s[|ms[0]|..];
      assert s == w + rest;
      CutsSpell(rest, ms[1..]);
      SpellFirst(w, rest, LoweredAll(ms[1..]));
    } else if s != "" {
      CutsSpell(s[1..], ms);
    }
  }

  /** The words spell the letters and digits of the input. */
  lemma WordsSpell(s: string)
    ensures Concat(Words(s)) == Alnums(s) && AreWords(Words(s))
  {
    MatchesCut(s);
    CutsSpell(s, Matches(s));
  }

  lemma WordsEmpty(s: string)
    ensures Words(s) == [] <==> Matches(s) == []
    ensures Words(s) == [] <==> Alnums(s) == ""
  {
    WordsSpell(s);
  }

  /**
   Lossless: when there is an ASCII letter or digit, the result spells exactly the letters and digits
   of the input, in order and lower-cased; otherwise it is the input itself.
   */
  lemma SnakeCaseIsLossless(s: string)
    ensures Alnums(ToSnakeCase(s)) == Alnums(s)
    ensures Alnums(s) == "" ==> ToSnakeCase(s) == s
    ensures Alnums(s) != "" ==> forall i :: 0 <= i < |ToSnakeCase(s)| ==>
              IsLower(ToSnakeCase(s)[i]) || IsDigit(ToSnakeCase(s)[i]) || ToSnakeCase(s)[i] == '_'
  {
    WordsSpell(s);
    WordsEmpty(s);
    if Matches(s) != [] {
      JoinAlnums(Words(s));
      JoinChars(Words(s));
    }
  }

  /** Single underscores, and only between words. */
  predicate IsSeparated(s: string) {
    s != "" && s[0] != '_' && s[|s| - 1] != '_' && forall i :: 0 < i < |s| ==> s[i - 1] != '_' || s[i] != '_'
  }

  lemma WordHasNone(w: string)
    requires IsSnakeWord(w)
    ensures w != "" && forall i :: 0 <= i < |w| ==> w[i] != '_'
  {
    var k := LowerRun(w);
    assert forall i :: k <= i < |w| ==> w[i] == w[k..][i - k];
  }

  lemma {:induction false} JoinSeparates(ws: seq<string>)
    requires ws != [] && forall i :: 0 <= i < |ws| ==> IsSnakeWord(ws[i])
    ensures IsSeparated(Join(ws))
    decreases |ws|
  {
    WordHasNone(ws[0]);
    if |ws| > 1 {
      JoinSeparates(ws[1..]);
      SeparatedCons(ws[0], Join(ws[1..]));
    }
  }

  lemma SeparatedCons(w: string, later: string)
    requires w != "" && (forall i :: 0 <= i < |w| ==> w[i] != '_') && IsSeparated(later)
    ensures IsSeparated(w + ("_" + later))
  {
    var s := w + ("_" + later);
    assert forall i :: |w| < i < |s| ==> s[i] == later[i - |w| - 1];
  }

  /** With a letter or digit in it, the result is words with single underscores between them. */
  lemma SnakeCaseSeparates(s: string)
    ensures Alnums(s) != "" ==> IsSeparated(ToSnakeCase(s))
  {
    WordsSpell(s);
    WordsEmpty(s);
    if Matches(s) != [] {
      JoinSeparates(Words(s));
    }
  }

  lemma {:induction false} JoinChars(ws: seq<string>)
    requires forall i :: 0 <= i < |ws| ==> IsSnakeWord(ws[i])
    ensures forall i :: 0 <= i < |Join(ws)| ==> IsLower(Join(ws)[i]) || IsDigit(Join(ws)[i]) || Join(ws)[i] == '_'
    decreases |ws|
  {
    if ws != [] {
      var w, k := ws[0], LowerRun(ws[0]);
      assert forall i :: k <= i < |w| ==> w[i] == w[k..][i - k];
      if |ws| > 1 {
        JoinChars(ws[1..]);
      }
    }
  }

  // ---------- the result is a fixed point ----------

  /** A word of the result is matched whole when a separator or the end follows. */
  lemma WordIsMatched(w: string, rest: string)
    requires IsSnakeWord(w) && (rest != "" ==> rest[0] == '_')
    ensures MatchLength(w + rest) == |w|
  {
    var s, k := w + rest, LowerRun(w);
    assert forall i :: k <= i < |w| ==> w[i] == w[k..][i - k];
    assert IsLower(w[0]) || IsDigit(w[0]);
    assert UpperRun(s) == 0;
    assert forall i :: 0 <= i < |w| ==> s[i] == w[i];
    LowerRunIs(s, k);
    assert s[0..] == s;
    forall i | 0 <= i < |w| - k ensures IsDigit(s[k..][i]) {
      assert s[k..][i] == w[k..][i];
    }
    DigitRunIs(s[k..], |w| - k);
    if k == 0 {
      assert s[k..] == s;
    }
  }

  lemma SeparatorIsSkipped(s: string)
    ensures Matches("_" + s) == Matches(s)
  {
    MatchIsWord("_" + s);
    assert ("_" + s)[1..] == s;
  }

  lemma FirstWordIsMatched(w: string, rest: string)
    requires IsSnakeWord(w) && (rest != "" ==> rest[0] == '_')
    ensures Matches(w + rest) == [w] + Matches(rest)
  {
    WordIsMatched(w, rest);
    assert (w + rest)[..|w|] == w && (w + rest)[|w|..] == rest;
  }

  lemma LaterWordsMatched(w: string, ws: seq<string>, rest: string)
    requires IsSnakeWord(w) && Matches(rest) == ws
    ensures Matches(w + ("_" + rest)) == [w] + ws
  {
    SeparatorIsSkipped(rest);
    FirstWordIsMatched(w, "_" + rest);
  }

  lemma OneWordMatched(w: string)
    requires IsSnakeWord(w)
    ensures Matches(w) == [w]
  {
    FirstWordIsMatched(w, "");
    assert w + "" == w && Matches("") == [];
  }

  lemma {:induction false} JoinIsMatched(ws: seq<string>)
    requires forall i :: 0 <= i < |ws| ==> IsSnakeWord(ws[i])
    ensures Matches(Join(ws)) == ws
    decreases |ws|
  {
    if |ws| == 1 {
      OneWordMatched(ws[0]);
    } else if ws != [] {
      var w, later := ws[0], ws[1..];
      JoinIsMatched(later);
      LaterWordsMatched(w, later, Join(later));
      assert Join(ws) == w + ("_" + Join(later)) && ws == [w] + later;
    }
  }

  lemma {:induction false} LoweredWord(w: string)
    requires forall i :: 0 <= i < |w| ==> IsLower(w[i]) || IsDigit(w[i])
    ensures Lowered(w) == w
    decreases |w|
  {
    if w != "" {
      LoweredWord(w[1..]);
    }
  }

  lemma {:induction false} LoweredAllWords(ws: seq<string>)
    requires forall i :: 0 <= i < |ws| ==> IsSnakeWord(ws[i])
    ensures LoweredAll(ws) == ws
    decreases |ws|
  {
    if ws != [] {
      var w, k := ws[0], LowerRun(ws[0]);
      assert forall i :: k <= i < |w| ==> w[i] == w[k..][i - k];
      LoweredWord(w);
      LoweredAllWords(ws[1..]);
    }
  }

  /** `toSnakeCase` of its own result changes nothing. */
  lemma SnakeCaseIsIdempotent(s: string)
    ensures ToSnakeCase(ToSnakeCase(s)) == ToSnakeCase(s)
  {
    WordsSpell(s);
    WordsEmpty(s);
    if Matches(s) != [] {
      var ws := Words(s);
      JoinIsMatched(ws);
      LoweredAllWords(ws);
    }
  }
}
