/**
 The vocabulary of packages/cli-repl/src/line-by-line-input.ts: the decoded characters a terminal
 delivers, the entries of the character queue, and the tokens those entries always are.
 */
module LineTokens {
  import opened Prelude

  /** One decoded character, or the `null` that marks the end of the stream. */
  datatype Symbol = Ch(c: char) | Null

  /** One element of the character queue. The `null` element is `[Null]`. */
  type Entry = seq<Symbol>

  const CTRL_C := Ch('\U{0003}')
  const CTRL_D := Ch('\U{0004}')
  const CR := Ch('\r')
  const LF := Ch('\n')

  predicate IsControl(y: Symbol) {
    y == CTRL_C || y == CTRL_D
  }

  predicate IsRegular(y: Symbol) {
    y.Ch? && y != CR && y != LF && !IsControl(y)
  }

  /** The line-ending expression is not anchored: an entry matches when it contains `\n` or `\r`. */
  predicate IsLineEnding(e: Entry) {
    CR in e || LF in e
  }

  /** What is left of a stream when Ctrl+C and Ctrl+D are taken out. */
  function NonControl(ys: seq<Symbol>): seq<Symbol> {
    if ys == [] then []
    else (if IsControl(ys[0]) then [] else [ys[0]]) + NonControl(ys[1..])
  }

  /** The Ctrl+C and Ctrl+D characters of a stream. */
  function Controls(ys: seq<Symbol>): seq<Symbol> {
    if ys == [] then []
    else (if IsControl(ys[0]) then [ys[0]] else []) + Controls(ys[1..])
  }

  function Flatten(q: seq<Entry>): seq<Symbol> {
    if q == [] then [] else q[0] + Flatten(q[1..])
  }

  /** Queue one non-control character: extend the last entry, or open a new one. */
  function Enqueue(q: seq<Entry>, y: Symbol): seq<Entry> {
    if q != [] && q[|q| - 1] != [] && Extends(q[|q| - 1][|q[|q| - 1]| - 1], y)
    then q[|q| - 1 := q[|q| - 1] + [y]]
    else q + [[y]]
  }

  /** Does `y` belong to the same entry as the character `last` before it? */
  predicate Extends(last: Symbol, y: Symbol) {
    (y == LF && last == CR) || (IsRegular(y) && IsRegular(last))
  }

  predicate IsRun(e: Entry) {
    e != [] && forall i :: 0 <= i < |e| ==> IsRegular(e[i])
  }

  predicate IsToken(e: Entry) {
    e == [Null] || e == [LF] || e == [CR] || e == [CR, LF] || IsRun(e)
  }

  /** Every entry is a token, and no two neighbours could have been one token. */
  predicate Canonical(q: seq<Entry>) {
    && (forall i :: 0 <= i < |q| ==> IsToken(q[i]))
    && (forall i :: 0 < i < |q| ==> !Extends(q[i - 1][|q[i - 1]| - 1], q[i][0]))
  }

  /** The number of symbols in the longest token that `ys` starts with. */
  function Munch(ys: seq<Symbol>): (n: nat)
    requires ys != []
    ensures 1 <= n <= |ys|
  {
    if |ys| > 1 && Extends(ys[0], ys[1]) && IsRegular(ys[0]) then 1 + Munch(ys[1..])
    else if |ys| > 1 && Extends(ys[0], ys[1]) then 2
    else 1
  }

  /** The reference tokenization: longest token first, from the front. */
  function Tokenize(ys: seq<Symbol>): seq<Entry> {
    if ys == [] then [] else [ys[..Munch(ys)]] + Tokenize(ys[Munch(ys)..])
  }

  // ---------- filters and concatenation ----------

  lemma {:induction false} NonControlAppend(a: seq<Symbol>, b: seq<Symbol>)
    ensures NonControl(a + b) == NonControl(a) + NonControl(b)
    ensures Controls(a + b) == Controls(a) + Controls(b)
    decreases |a|
  {
    if a == [] {
      assert a + b == b;
    } else {
      var ab := a + b;
      assert ab[0] == a[0] && ab[1..] == a[1..] + b;
      NonControlAppend(a[1..], b);
      Assoc(if IsControl(a[0]) then [] else [a[0]], NonControl(a[1..]), NonControl(b));
      Assoc(if IsControl(a[0]) then [a[0]] else [], Controls(a[1..]), Controls(b));
    }
  }

  lemma {:induction false} FlattenAppend(p: seq<Entry>, q: seq<Entry>)
    ensures Flatten(p + q) == Flatten(p) + Flatten(q)
    decreases |p|
  {
    if p == [] {
      assert p + q == q;
    } else {
      var pq := p + q;
      assert pq[0] == p[0] && pq[1..] == p[1..] + q;
      FlattenAppend(p[1..], q);
      Assoc(p[0], Flatten(p[1..]), Flatten(q));
    }
  }

  lemma NoControl(e: Entry)
    requires forall i :: 0 <= i < |e| ==> !IsControl(e[i])
    ensures NonControl(e) == e && Controls(e) == []
  {
    if e != [] {
      NoControl(e[1..]);
    }
  }

  lemma {:induction false} ControlsAreControls(ys: seq<Symbol>)
    ensures NonControl(Controls(ys)) == [] && Controls(Controls(ys)) == Controls(ys)
  {
    if ys != [] {
      var rest := Controls(ys[1..]);
      ControlsAreControls(ys[1..]);
      if IsControl(ys[0]) {
        assert Controls(ys) == [ys[0]] + rest;
        assert ([ys[0]] + rest)[1..] == rest;
      } else {
        assert Controls(ys) == rest;
      }
    }
  }

  lemma CanonicalHead(q: seq<Entry>)
    requires Canonical(q) && q != []
    ensures Canonical(q[1..]) && NonControl(q[0]) == q[0] && Controls(q[0]) == []
  {
    assert IsToken(q[0]);
    NoControl(q[0]);
  }

  // ---------- the queue is always the canonical tokenization of its text ----------

  lemma CanonicalAppend(p: seq<Entry>, e: Entry)
    requires Canonical(p) && IsToken(e)
    requires p != [] ==> IsToken(p[|p| - 1]) && !Extends(p[|p| - 1][|p[|p| - 1]| - 1], e[0])
    ensures Canonical(p + [e])
    ensures Flatten(p + [e]) == Flatten(p) + e
  {
    FlattenAppend(p, [e]);
    assert Flatten([e]) == e;
  }

  lemma TokenExtends(e: Entry, y: Symbol)
    requires IsToken(e) && Extends(e[|e| - 1], y)
    ensures IsToken(e + [y]) && (e + [y])[0] == e[0]
  {
    if IsRun(e) {
      assert IsRegular(e[|e| - 1]);
    }
  }

  lemma EnqueueExtends(p: seq<Entry>, last: Entry, y: Symbol)
    requires Canonical(p) && IsToken(last) && Extends(last[|last| - 1], y)
    requires p != [] ==> IsToken(p[|p| - 1]) && !Extends(p[|p| - 1][|p[|p| - 1]| - 1], last[0])
    ensures Canonical(p + [last + [y]])
    ensures Flatten(p + [last + [y]]) == Flatten(p + [last]) + [y]
  {
    TokenExtends(last, y);
    CanonicalAppend(p, last);
    CanonicalAppend(p, last + [y]);
    Assoc(Flatten(p), last, [y]);
  }

  lemma CanonicalInit(q: seq<Entry>)
    requires Canonical(q) && q != []
    ensures var p, last := q[..|q| - 1], q[|q| - 1];
            && Canonical(p) && IsToken(last)
            && (p != [] ==> IsToken(p[|p| - 1]) && !Extends(p[|p| - 1][|p[|p| - 1]| - 1], last[0]))
  {
    assert |q| > 1 ==> IsToken(q[|q| - 2]) && !Extends(q[|q| - 2][|q[|q| - 2]| - 1], q[|q| - 1][0]);
  }

  lemma EnqueueOpens(q: seq<Entry>, y: Symbol)
    requires Canonical(q) && !IsControl(y)
    requires q != [] ==> IsToken(q[|q| - 1]) && !Extends(q[|q| - 1][|q[|q| - 1]| - 1], y)
    ensures Canonical(q + [[y]])
    ensures Flatten(q + [[y]]) == Flatten(q) + [y]
  {
    assert IsToken([y]);
    CanonicalAppend(q, [y]);
  }

  lemma EnqueueJoins(q: seq<Entry>, y: Symbol)
    requires Canonical(q) && q != [] && IsToken(q[|q| - 1]) && Extends(q[|q| - 1][|q[|q| - 1]| - 1], y)
    ensures Canonical(q[|q| - 1 := q[|q| - 1] + [y]])
    ensures Flatten(q[|q| - 1 := q[|q| - 1] + [y]]) == Flatten(q) + [y]
  {
    var p, last := q[..|q| - 1], q[|q| - 1];
    CanonicalInit(q);
    assert q == p + [last] && q[|q| - 1 := last + [y]] == p + [last + [y]];
    EnqueueExtends(p, last, y);
  }

  lemma LastIsToken(q: seq<Entry>)
    requires Canonical(q) && q != []
    ensures IsToken(q[|q| - 1])
  {}

  lemma EnqueueCanonical(q: seq<Entry>, y: Symbol)
    requires Canonical(q) && !IsControl(y)
    ensures Canonical(Enqueue(q, y))
    ensures Flatten(Enqueue(q, y)) == Flatten(q) + [y]
  {
    if q == [] {
      EnqueueOpens(q, y);
    } else {
      LastIsToken(q);
      if Extends(q[|q| - 1][|q[|q| - 1]| - 1], y) {
        EnqueueJoins(q, y);
      } else {
        EnqueueOpens(q, y);
      }
    }
  }

  lemma {:induction false} MunchIsFirstToken(e: Entry, rest: seq<Symbol>)
    requires IsToken(e)
    requires rest != [] ==> !Extends(e[|e| - 1], rest[0])
    ensures Munch(e + rest) == |e|
    decreases |e|
  {
    var ys := e + rest;
    if IsRun(e) && |e| > 1 {
      assert ys[1..] == e[1..] + rest;
      assert IsRegular(e[0]) && IsRegular(e[1]);
      MunchIsFirstToken(e[1..], rest);
    } else if |ys| > 1 && |e| == 1 {
      assert ys[1] == rest[0];
    }
  }

  /** A canonical queue is the one tokenization of its text. */
  lemma {:induction false} CanonicalIsTokenize(q: seq<Entry>)
    requires Canonical(q)
    ensures q == Tokenize(Flatten(q))
  {
    if q != [] {
      var rest := Flatten(q[1..]);
      if |q| > 1 {
        assert IsToken(q[1]);
        assert rest[0] == q[1][0];
      }
      MunchIsFirstToken(q[0], rest);
      assert (q[0] + rest)[|q[0]|..] == rest;
      CanonicalIsTokenize(q[1..]);
    }
  }

  // ---------- tokens and line breaks, character by character ----------

  predicate IsPlain(y: Symbol) {
    y.Ch? && y.c != '\r' && y.c != '\n' && y.c != '\U{0003}' && y.c != '\U{0004}'
  }

  /** The end of the input, a line break, or a run of other characters. */
  predicate IsPiece(e: Entry) {
    || e == [Null] || e == [Ch('\n')] || e == [Ch('\r')] || e == [Ch('\r'), Ch('\n')]
    || (e != [] && forall i :: 0 <= i < |e| ==> IsPlain(e[i]))
  }

  /** Two neighbours that are rightly two pieces. */
  predicate AreApart(a: Symbol, b: Symbol) {
    !(IsPlain(a) && IsPlain(b)) && !(a == Ch('\r') && b == Ch('\n'))
  }

  /** What canonical means: maximal runs, and each line break, CR LF included, one entry. */
  lemma CanonicalMeans(q: seq<Entry>)
    ensures Canonical(q) <==>
            && (forall i :: 0 <= i < |q| ==> IsPiece(q[i]))
            && (forall i :: 0 < i < |q| ==> AreApart(q[i - 1][|q[i - 1]| - 1], q[i][0]))
  {
    forall e: Entry ensures IsPiece(e) <==> IsToken(e) {
      PieceIsToken(e);
    }
  }

  lemma PieceIsToken(e: Entry)
    ensures IsPiece(e) <==> IsToken(e)
  {
    assert forall y :: IsPlain(y) <==> IsRegular(y);
  }

  predicate IsBreak(e: Entry) {
    e == [Ch('\n')] || e == [Ch('\r')] || e == [Ch('\r'), Ch('\n')]
  }

  /** The line breaks of a text: each line feed, and each carriage return with no line feed behind it. */
  function Breaks(ys: seq<Symbol>): nat {
    if ys == [] then 0
    else
      (if ys[0] == Ch('\n') || (ys[0] == Ch('\r') && (|ys| == 1 || ys[1] != Ch('\n'))) then 1 else 0)
      + Breaks(ys[1..])
  }

  /** The length of the first line with its line break; all of the text when there is none. */
  function LineLength(ys: seq<Symbol>): (n: nat)
    ensures n <= |ys|
  {
    if ys == [] then 0
    else if ys[0] == Ch('\n') then 1
    else if ys[0] == Ch('\r') then if |ys| > 1 && ys[1] == Ch('\n') then 2 else 1
    else 1 + LineLength(ys[1..])
  }

  lemma {:induction false} BreaksAppend(a: seq<Symbol>, b: seq<Symbol>)
    ensures Breaks(a + b) <= Breaks(a) + Breaks(b)
    decreases |a|
  {
    if a == [] {
      assert a + b == b;
    } else {
      var ab := a + b;
      assert ab[0] == a[0] && ab[1..] == a[1..] + b;
      assert |a| > 1 ==> ab[1] == a[1];
      BreaksAppend(a[1..], b);
    }
  }

  lemma {:induction false} PlainHasNoBreak(e: Entry)
    requires forall i :: 0 <= i < |e| ==> IsRegular(e[i])
    ensures Breaks(e) == 0
    decreases |e|
  {
    if e != [] {
      PlainHasNoBreak(e[1..]);
    }
  }

  /** A token ends a line exactly when it is one of the three line breaks. */
  lemma TokenEndsLineIff(e: Entry)
    requires IsToken(e)
    ensures IsLineEnding(e) <==> IsBreak(e)
    ensures Breaks(e) == if IsBreak(e) then 1 else 0
  {
    if IsRun(e) {
      PlainHasNoBreak(e);
    } else if e == [CR, LF] {
      assert e[1..] == [LF] && Breaks([LF]) == 1;
    }
  }

  /** In front of the first line break there are whole tokens, and behind it as well. */
  lemma {:induction false} LineOfRun(e: Entry, rest: seq<Symbol>)
    requires forall i :: 0 <= i < |e| ==> e[i] != CR && e[i] != LF
    ensures LineLength(e + rest) == |e| + LineLength(rest)
    decreases |e|
  {
    if e == [] {
      assert e + rest == rest;
    } else {
      assert (e + rest)[0] == e[0] && (e + rest)[1..] == e[1..] + rest;
      LineOfRun(e[1..], rest);
    }
  }

  lemma LineOfToken(e: Entry, rest: seq<Symbol>)
    requires IsToken(e) && (rest != [] ==> !Extends(e[|e| - 1], rest[0]))
    ensures LineLength(e + rest) == if IsBreak(e) then |e| else |e| + LineLength(rest)
  {
    if !IsBreak(e) {
      LineOfRun(e, rest);
    } else if |e| == 1 && rest != [] {
      assert (e + rest)[1] == rest[0];
    }
  }
}
