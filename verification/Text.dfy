/** The string primitives the modelled Go code relies on: trimming, lower-casing and
    lexicographic comparison.  Strings are sequences of code points. */
module Text {

  /** Unicode White_Space, the set Go's `unicode.IsSpace` recognises. */
  predicate IsSpace(c: char) {
    || '\t' <= c <= '\r' || c == ' ' || c == '\U{0085}' || c == '\U{00A0}' || c == '\U{1680}'
    || '\U{2000}' <= c <= '\U{200A}' || c == '\U{2028}' || c == '\U{2029}' || c == '\U{202F}'
    || c == '\U{205F}' || c == '\U{3000}'
  }

  /** Neither end of the string is white space. */
  predicate Trimmed(s: string) {
    s == "" || (!IsSpace(s[0]) && !IsSpace(s[|s| - 1]))
  }

  function TrimLeft(s: string): string {
    if s != "" && IsSpace(s[0]) then TrimLeft(s[1..]) else s
  }

  function TrimRight(s: string): string {
    if s != "" && IsSpace(s[|s| - 1]) then TrimRight(s[..|s| - 1]) else s
  }

  function TrimSpace(s: string): string {
    TrimRight(TrimLeft(s))
  }

  /** Left trimming keeps a suffix that does not start with white space. */
  lemma {:induction false} TrimLeftFacts(s: string)
    ensures TrimLeft(s) == "" || !IsSpace(TrimLeft(s)[0])
    ensures exists k :: 0 <= k <= |s| && TrimLeft(s) == s[k..]
    decreases |s|
  {
    if s != "" && IsSpace(s[0]) {
      TrimLeftFacts(s[1..]);
      var k :| 0 <= k <= |s[1..]| && TrimLeft(s[1..]) == s[1..][k..];
      assert s[1..][k..] == s[k + 1..];
    } else {
      assert s == s[0..];
    }
  }

  /** Right trimming keeps a prefix that does not end with white space. */
  lemma {:induction false} TrimRightFacts(s: string)
    ensures TrimRight(s) == "" || !IsSpace(TrimRight(s)[|TrimRight(s)| - 1])
    ensures TrimRight(s) <= s
    decreases |s|
  {
    if s != "" && IsSpace(s[|s| - 1]) {
      TrimRightFacts(s[..|s| - 1]);
    }
  }

  /** Trimming yields a trimmed part of the string, and leaves trimmed strings alone. */
  lemma TrimSpaceFacts(s: string)
    ensures Trimmed(TrimSpace(s))
    ensures Trimmed(s) ==> TrimSpace(s) == s
    ensures forall c :: c in TrimSpace(s) ==> c in s
  {
    TrimLeftFacts(s);
    TrimRightFacts(TrimLeft(s));
  }

  /** Text that starts with a visible character stops left trimming. */
  lemma {:induction false} TrimLeftAppend(a: string, b: string)
    requires b != "" && !IsSpace(b[0])
    ensures TrimLeft(a + b) == TrimLeft(a) + b
  {
    if a != "" && IsSpace(a[0]) {
      assert (a + b)[1..] == a[1..] + b;
      TrimLeftAppend(a[1..], b);
    } else if a == "" {
      assert a + b == b;
    }
  }

  /** Text that ends with a visible character stops right trimming. */
  lemma {:induction false} TrimRightAppend(a: string, b: string)
    requires a != "" && !IsSpace(a[|a| - 1])
    ensures TrimRight(a + b) == a + TrimRight(b)
  {
    if b != "" && IsSpace(b[|b| - 1]) {
      assert (a + b)[..|a + b| - 1] == a + b[..|b| - 1];
      TrimRightAppend(a, b[..|b| - 1]);
    } else if b == "" {
      assert a + b == a;
    }
  }

  function LowerChar(c: char): char {
    if 'A' <= c <= 'Z' then c - 'A' + 'a' else c
  }

  function ToLower(s: string): (r: string)
    ensures |r| == |s|
    ensures forall i :: 0 <= i < |s| ==> r[i] == LowerChar(s[i])
  {
    seq(|s|, i requires 0 <= i < |s| => LowerChar(s[i]))
  }

  predicate AllLower(s: string) {
    forall c :: c in s ==> LowerChar(c) == c
  }

  /** Lexicographic order on code points, which is also byte order on their UTF-8 encoding. */
  predicate StrLess(a: string, b: string) {
    if b == "" then false
    else if a == "" then true
    else if a[0] != b[0] then a[0] < b[0]
    else StrLess(a[1..], b[1..])
  }

  lemma {:induction false} StrLessTransitive(a: string, b: string, c: string)
    requires StrLess(a, b) && StrLess(b, c)
    ensures StrLess(a, c)
  {
    if a != "" && a[0] == b[0] == c[0] {
      StrLessTransitive(a[1..], b[1..], c[1..]);
    }
  }

  lemma {:induction false} StrLessTotal(a: string, b: string)
    ensures a == b || StrLess(a, b) || StrLess(b, a)
  {
    if a != "" && b != "" && a[0] == b[0] {
      StrLessTotal(a[1..], b[1..]);
      if a[1..] == b[1..] {
        assert a == [a[0]] + a[1..] && b == [b[0]] + b[1..];
      }
    } else if a == "" && b == "" {
    }
  }

  lemma StrLessWeak(a: string, b: string, c: string)
    ensures StrLess(a, b) ==> !StrLess(b, a)
    ensures StrLess(a, c) ==> StrLess(a, b) || StrLess(b, c)
  {
    if StrLess(a, b) && StrLess(b, a) { StrLessTransitive(a, b, a); }
    StrLessTotal(a, b);
    if StrLess(a, c) && StrLess(b, a) { StrLessTransitive(b, a, c); }
  }

  predicate HasPrefix(s: string, prefix: string) {
    prefix <= s
  }

  /** `strings.EqualFold` on ASCII letters. */
  predicate EqualFold(a: string, b: string) {
    ToLower(a) == ToLower(b)
  }

  predicate Contains(s: string, needle: string)
    decreases |s|
  {
    needle <= s || (s != "" && Contains(s[1..], needle))
  }

  /** Decimal notation. */
  function Decimal(n: nat): string {
    if n < 10 then [DIGITS[n]] else Decimal(n / 10) + [DIGITS[n % 10]]
  }

  const DIGITS := "0123456789"

  /** The index of the first occurrence of a character, or the length when there is none. */
  function IndexOf(s: string, c: char): (i: nat)
    ensures i <= |s| && (i < |s| ==> s[i] == c)
  {
    if s == "" || s[0] == c then 0 else 1 + IndexOf(s[1..], c)
  }

  lemma {:induction false} IndexOfFirst(s: string, c: char, k: nat)
    requires k < |s|
    ensures k < IndexOf(s, c) ==> s[k] != c
    ensures s[k] == c ==> IndexOf(s, c) <= k
  {
    if s[0] != c && k > 0 { IndexOfFirst(s[1..], c, k - 1); }
  }

  lemma {:induction false} IndexOfAppend(p: string, c: char, u: string)
    requires c !in p
    ensures IndexOf(p + u, c) == |p| + IndexOf(u, c)
  {
    if p == "" {
      assert p + u == u;
    } else {
      assert (p + u)[1..] == p[1..] + u && p[0] in p;
      assert forall x :: x in p[1..] ==> x in p;
      IndexOfAppend(p[1..], c, u);
    }
  }

  lemma {:induction false} NoneBefore(s: string, c: char)
    ensures c !in s[..IndexOf(s, c)]
  {
    if s != "" && s[0] != c {
      NoneBefore(s[1..], c);
      assert s[..IndexOf(s, c)] == [s[0]] + s[1..][..IndexOf(s[1..], c)];
    }
  }

  // ---------------------------------------------------------------- what the functions mean

  predicate AllSpace(s: string) {
    forall i :: 0 <= i < |s| ==> IsSpace(s[i])
  }

  lemma {:induction false} TrimLeftPadded(a: string, x: string)
    requires AllSpace(a)
    ensures TrimLeft(a + x) == TrimLeft(x)
  {
    if a == "" {
      assert a + x == x;
    } else {
      assert (a + x)[0] == a[0] && (a + x)[1..] == a[1..] + x;
      TrimLeftPadded(a[1..], x);
    }
  }

  lemma {:induction false} TrimRightPadded(x: string, b: string)
    requires AllSpace(b)
    ensures TrimRight(x + b) == TrimRight(x)
  {
    if b == "" {
      assert x + b == x;
    } else {
      var n := |b| - 1;
      assert (x + b)[|x + b| - 1] == b[n] && (x + b)[..|x + b| - 1] == x + b[..n];
      TrimRightPadded(x, b[..n]);
    }
  }

  /** Trimming removes exactly the white space around a text. */
  lemma TrimPadded(a: string, x: string, b: string)
    requires AllSpace(a) && AllSpace(b) && Trimmed(x)
    ensures TrimSpace(a + x + b) == x
  {
    assert a + x + b == a + (x + b);
    TrimLeftPadded(a, x + b);
    if x == "" {
      assert x + b == b + "";
      TrimLeftPadded(b, "");
    } else {
      assert (x + b)[0] == x[0];
      TrimRightPadded(x, b);
    }
  }

  lemma {:induction false} LeftPadding(s: string) returns (a: string)
    ensures AllSpace(a) && s == a + TrimLeft(s)
    decreases |s|
  {
    a := "";
    if s != "" && IsSpace(s[0]) {
      var rest := LeftPadding(s[1..]);
      a := [s[0]] + rest;
    }
  }

  lemma {:induction false} RightPadding(s: string) returns (b: string)
    ensures AllSpace(b) && s == TrimRight(s) + b
    decreases |s|
  {
    b := "";
    if s != "" && IsSpace(s[|s| - 1]) {
      var rest := RightPadding(s[..|s| - 1]);
      b := rest + [s[|s| - 1]];
    }
  }

  lemma TrimParts(s: string) returns (a: string, b: string)
    ensures AllSpace(a) && AllSpace(b) && s == a + TrimSpace(s) + b
  {
    a := LeftPadding(s);
    b := RightPadding(TrimLeft(s));
  }

  predicate StartsAt(s: string, i: nat, word: string) {
    i + |word| <= |s| && s[i..i + |word|] == word
  }

  /** Containing a word is having it start somewhere. */
  lemma {:induction false} ContainsMeans(s: string, word: string)
    ensures Contains(s, word) <==> exists i :: StartsAt(s, i, word)
    decreases |s|
  {
    assert word <= s <==> StartsAt(s, 0, word);
    if s != "" {
      ContainsMeans(s[1..], word);
      forall i: nat ensures StartsAt(s[1..], i, word) <==> StartsAt(s, i + 1, word) {
        if i + 1 + |word| <= |s| { assert s[1..][i..i + |word|] == s[i + 1..i + 1 + |word|]; }
      }
      if i: nat :| StartsAt(s, i, word) && i > 0 { assert StartsAt(s[1..], i - 1, word); }
    }
  }

  lemma LowerKeepsSpace(c: char)
    ensures IsSpace(LowerChar(c)) <==> IsSpace(c)
  {}

  /** Trimming does not hide a word without white space. */
  lemma TrimKeepsWord(s: string, word: string)
    requires word != "" && forall i :: 0 <= i < |word| ==> !IsSpace(word[i])
    ensures (exists i :: StartsAt(ToLower(TrimSpace(s)), i, word)) <==> exists i :: StartsAt(ToLower(s), i, word)
  {
    var a, b := TrimParts(s);
    var t := TrimSpace(s);
    if i: nat :| StartsAt(ToLower(t), i, word) {
      WordMoves(a, t, b, i, word);
      assert StartsAt(ToLower(s), |a| + i, word);
    }
    if i: nat :| StartsAt(ToLower(s), i, word) {
      WordInside(a, t, b, i, word);
      assert StartsAt(ToLower(t), i - |a|, word);
    }
  }

  lemma WordMoves(a: string, t: string, b: string, i: nat, word: string)
    requires StartsAt(ToLower(t), i, word)
    ensures StartsAt(ToLower(a + t + b), |a| + i, word)
  {
    var l := ToLower(a + t + b);
    forall j | 0 <= j < |word| ensures l[|a| + i + j] == word[j] {
      assert word[j] == ToLower(t)[i..i + |word|][j] && (a + t + b)[|a| + i + j] == t[i + j];
    }
    assert l[|a| + i..|a| + i + |word|] == word;
  }

  lemma LetterInside(a: string, t: string, b: string, i: nat, word: string, j: nat)
    requires AllSpace(a) && AllSpace(b) && StartsAt(ToLower(a + t + b), i, word) && j < |word| && !IsSpace(word[j])
    ensures |a| <= i + j < |a| + |t| && LowerChar(t[i + j - |a|]) == word[j]
  {
    var s := a + t + b;
    assert word[j] == ToLower(s)[i..i + |word|][j] == ToLower(s)[i + j];
    LowerKeepsSpace(s[i + j]);
    assert forall k :: 0 <= k < |a| ==> IsSpace(s[k]);
    assert forall k :: |a| + |t| <= k < |s| ==> IsSpace(s[k]);
  }

  lemma WordInside(a: string, t: string, b: string, i: nat, word: string)
    requires AllSpace(a) && AllSpace(b) && StartsAt(ToLower(a + t + b), i, word)
    requires word != "" && forall j :: 0 <= j < |word| ==> !IsSpace(word[j])
    ensures |a| <= i && StartsAt(ToLower(t), i - |a|, word)
  {
    LetterInside(a, t, b, i, word, 0);
    LetterInside(a, t, b, i, word, |word| - 1);
    forall j | 0 <= j < |word| ensures ToLower(t)[i - |a| + j] == word[j] { LetterInside(a, t, b, i, word, j); }
    assert ToLower(t)[i - |a|..i - |a| + |word|] == word;
  }

  /** The order compares the first characters that differ; a proper prefix comes first. */
  lemma {:induction false} StrLessMeans(a: string, b: string)
    ensures StrLess(a, b) <==> exists k :: DiffersAt(a, b, k)
    decreases |a|
  {
    if b != "" && a != "" {
      StrLessMeans(a[1..], b[1..]);
      forall k: nat | a[0] == b[0] ensures DiffersAt(a[1..], b[1..], k) <==> DiffersAt(a, b, k + 1) {
        if k < |b[1..]| && k <= |a[1..]| { DiffersShift(a, b, k); }
      }
      if k: nat :| DiffersAt(a, b, k) && k > 0 {
        assert a[..k][0] == b[..k][0];
        assert DiffersAt(a[1..], b[1..], k - 1);
      }
      if a[0] < b[0] { assert DiffersAt(a, b, 0); }
    } else if b != "" {
      assert DiffersAt(a, b, 0);
    }
  }

  /** Up to `k` the texts agree, and there `a` ends or has the smaller character. */
  predicate DiffersAt(a: string, b: string, k: nat) {
    k < |b| && k <= |a| && a[..k] == b[..k] && (k == |a| || a[k] < b[k])
  }

  lemma DiffersShift(a: string, b: string, k: nat)
    requires a != "" && b != "" && a[0] == b[0] && k < |b| - 1 && k <= |a| - 1
    ensures a[1..][..k] == b[1..][..k] <==> a[..k + 1] == b[..k + 1]
  {
    assert a[..k + 1] == [a[0]] + a[1..][..k] && b[..k + 1] == [b[0]] + b[1..][..k];
    if a[..k + 1] == b[..k + 1] { assert a[1..][..k] == a[..k + 1][1..] && b[1..][..k] == b[..k + 1][1..]; }
  }
}
