/** The string primitives the core relies on: Python's `str.lower()` restricted
    to ASCII letters, `str.split()` with no separator, and `str()` of a
    non-negative integer. */
module Text {

  predicate IsAsciiUpper(c: char) { 'A' <= c <= 'Z' }

  /** A string with no ASCII capital letter in it. */
  predicate IsLowerCase(s: string) {
    forall i :: 0 <= i < |s| ==> !IsAsciiUpper(s[i])
  }

  function LowerChar(c: char): (r: char)
    ensures !IsAsciiUpper(r)
    ensures r == c <==> !IsAsciiUpper(c)
    ensures IsAsciiUpper(c) ==> r as int - c as int == 'a' as int - 'A' as int
  {
    if IsAsciiUpper(c) then (c as int - 'A' as int + 'a' as int) as char else c
  }

  /** `s.lower()` on the ASCII letters; every other character is kept. */
  function Lower(s: string): (r: string)
    ensures |r| == |s|
    ensures forall i :: 0 <= i < |s| ==> r[i] == LowerChar(s[i])
    ensures IsLowerCase(r)
  {
    seq(|s|, i requires 0 <= i < |s| => LowerChar(s[i]))
  }

  lemma LowerIdempotent(s: string)
    ensures Lower(Lower(s)) == Lower(s)
  {
  }

  lemma LowerOfLowerCase(s: string)
    requires IsLowerCase(s)
    ensures Lower(s) == s
  {
  }

  lemma LowerConcat(a: string, b: string)
    ensures Lower(a + b) == Lower(a) + Lower(b)
  {
  }

  lemma LowerSlice(s: string, i: nat, j: nat)
    requires i <= j <= |s|
    ensures Lower(s[i..j]) == Lower(s)[i..j]
  {
  }

  /** The characters Python's `str.isspace()` accepts, which are the separators
      of `str.split()` without an argument. */
  predicate IsSpace(c: char) {
    var n := c as int;
    (9 <= n <= 13) || (28 <= n <= 32) || n == 0x85 || n == 0xA0 || n == 0x1680 ||
    (0x2000 <= n <= 0x200A) || n == 0x2028 || n == 0x2029 || n == 0x202F ||
    n == 0x205F || n == 0x3000
  }

  /** A non-empty run of characters none of which is whitespace. */
  predicate IsWord(w: string) {
    |w| > 0 && forall i :: 0 <= i < |w| ==> !IsSpace(w[i])
  }

  /** The length of the longest whitespace-free prefix of `s`. */
  function WordLen(s: string): (n: nat)
    ensures n <= |s|
    ensures forall i :: 0 <= i < n ==> !IsSpace(s[i])
    ensures n < |s| ==> IsSpace(s[n])
  {
    if |s| == 0 || IsSpace(s[0]) then 0 else 1 + WordLen(s[1..])
  }

  /** `s.split()`: the maximal runs of non-whitespace characters, in order;
      leading, trailing and repeated whitespace produce no empty strings. */
  function Split(s: string): (r: seq<string>)
    ensures forall k :: 0 <= k < |r| ==> IsWord(r[k])
    decreases |s|
  {
    if |s| == 0 then []
    else if IsSpace(s[0]) then Split(s[1..])
    else
      var n := WordLen(s);
      [s[..n]] + Split(s[n..])
  }

  lemma WordLenOfWordThenRest(w: string, rest: string)
    requires IsWord(w)
    requires rest == [] || IsSpace(rest[0])
    ensures WordLen(w + rest) == |w|
  {
    var n := WordLen(w + rest);
    assert forall i :: 0 <= i < |w| ==> (w + rest)[i] == w[i];
    assert |w| < |w + rest| ==> (w + rest)[|w|] == rest[0];
  }

  /** A single word splits into itself. */
  lemma SplitWord(w: string)
    requires IsWord(w)
    ensures Split(w) == [w]
  {
    WordLenOfWordThenRest(w, []);
    assert w + [] == w;
    assert w[|w|..] == [];
  }

  lemma WordLenPrefix(a: string, b: string)
    requires WordLen(a) < |a|
    ensures WordLen(a + b) == WordLen(a)
  {
    assert forall i :: 0 <= i < |a| ==> (a + b)[i] == a[i];
  }

  /** A whitespace character separates: what lies on either side splits on its own. */
  lemma {:induction false} SplitSeparated(a: string, c: char, b: string)
    requires IsSpace(c)
    ensures Split(a + [c] + b) == Split(a) + Split(b)
    decreases |a|
  {
    var s := a + [c] + b;
    if |a| == 0 {
      assert s[1..] == b;
    } else if IsSpace(a[0]) {
      assert s[1..] == a[1..] + [c] + b;
      SplitSeparated(a[1..], c, b);
    } else {
      var n := WordLen(a);
      if n == |a| {
        WordLenOfWordThenRest(a, [c] + b);
        assert s == a + ([c] + b);
        assert s[..n] == a;
        assert s[n..] == [c] + b;
        assert ([c] + b)[1..] == b;
        assert Split([c] + b) == Split(b);
        assert a[..n] == a;
        assert a[n..] == [];
        assert Split(a) == [a];
      } else {
        WordLenPrefix(a, [c] + b);
        assert s == a + ([c] + b);
        assert s[..n] == a[..n];
        assert s[n..] == a[n..] + [c] + b;
        SplitSeparated(a[n..], c, b);
      }
    }
  }

  /** Words joined by single spaces, `" ".join(ws)`. */
  function JoinSpaces(ws: seq<string>): string {
    if |ws| == 0 then "" else if |ws| == 1 then ws[0] else ws[0] + [' '] + JoinSpaces(ws[1..])
  }

  /** Splitting undoes joining: words separated by single spaces split back into those words. */
  lemma {:induction false} SplitJoin(ws: seq<string>)
    requires forall k :: 0 <= k < |ws| ==> IsWord(ws[k])
    ensures Split(JoinSpaces(ws)) == ws
  {
    if |ws| == 1 {
      SplitWord(ws[0]);
    } else if |ws| > 1 {
      SplitWord(ws[0]);
      SplitJoin(ws[1..]);
      SplitSeparated(ws[0], ' ', JoinSpaces(ws[1..]));
      assert ws == [ws[0]] + ws[1..];
    }
  }

  lemma {:induction false} SplitLowerCase(s: string, k: nat)
    requires IsLowerCase(s)
    requires k < |Split(s)|
    ensures IsLowerCase(Split(s)[k])
    decreases |s|
  {
    if IsSpace(s[0]) {
      SplitLowerCase(s[1..], k);
    } else if k > 0 {
      SplitLowerCase(s[WordLen(s)..], k - 1);
    }
  }

  /** The tokens of the lower-cased text; `set(text.lower().split())` in the source. */
  function Tokens(text: string): (r: set<string>)
    ensures forall t :: t in r ==> IsWord(t) && IsLowerCase(t)
  {
    var words := Split(Lower(text));
    assert forall k :: 0 <= k < |words| ==> IsLowerCase(words[k]) by {
      forall k | 0 <= k < |words| ensures IsLowerCase(words[k]) {
        SplitLowerCase(Lower(text), k);
      }
    }
    set w | w in words
  }

  /** A text whose lower-cased form is words joined by single spaces has
      exactly those words as tokens. */
  lemma TokensOfWords(text: string, ws: seq<string>)
    requires forall k :: 0 <= k < |ws| ==> IsWord(ws[k])
    requires Lower(text) == JoinSpaces(ws)
    ensures Split(Lower(text)) == ws
    ensures Tokens(text) == set w | w in ws
  {
    SplitJoin(ws);
  }

  /** Two spaces in a row split as one does. */
  lemma SplitSpaceRun(a: string, b: string)
    ensures Split(a + [' '] + ([' '] + b)) == Split(a + [' '] + b)
  {
    SplitSeparated(a, ' ', [' '] + b);
    SplitSeparated([], ' ', b);
    assert [] + [' '] + b == [' '] + b;
    SplitSeparated(a, ' ', b);
  }

  /** A run of whitespace separates tokens as a single space does. */
  lemma TokensOfSpaceRun(a: string, b: string)
    ensures Tokens(a + [' ', ' '] + b) == Tokens(a + [' '] + b)
  {
    var la, lb := Lower(a), Lower(b);
    assert Lower(a + [' ', ' '] + b) == la + [' '] + ([' '] + lb);
    assert Lower(a + [' '] + b) == la + [' '] + lb;
    SplitSpaceRun(la, lb);
  }

  // ---- str(n) for a non-negative integer ----

  function DigitChar(d: nat): (c: char)
    requires d < 10
    ensures '0' <= c <= '9'
  {
    ('0' as int + d) as char
  }

  predicate IsDigit(c: char) { '0' <= c <= '9' }

  /** The decimal spelling Python's `str()` and f-strings give a non-negative int. */
  function NatToString(n: nat): (s: string)
    ensures |s| > 0
    ensures forall i :: 0 <= i < |s| ==> IsDigit(s[i])
    ensures s[0] == '0' ==> n == 0 && s == "0"
  {
    if n < 10 then [DigitChar(n)] else NatToString(n / 10) + [DigitChar(n % 10)]
  }

  /** Reading a string of decimal digits back as a number; the inverse of NatToString. */
  function ParseNat(s: string): nat
    requires forall i :: 0 <= i < |s| ==> IsDigit(s[i])
  {
    if |s| == 0 then 0
    else
      var last := s[|s| - 1];
      assert IsDigit(last);
      10 * ParseNat(s[..|s| - 1]) + (last as int - '0' as int)
  }

  lemma {:induction false} ParseNatToString(n: nat)
    ensures ParseNat(NatToString(n)) == n
  {
    var s := NatToString(n);
    if n >= 10 {
      assert s[..|s| - 1] == NatToString(n / 10);
      ParseNatToString(n / 10);
    }
  }

  /** Two status codes never spell the same error text. */
  lemma NatToStringInjective(m: nat, n: nat)
    requires NatToString(m) == NatToString(n)
    ensures m == n
  {
    ParseNatToString(m);
    ParseNatToString(n);
  }
}
