/** The JavaScript string primitives the blog relies on, over `seq<char>`. */
module Text {

  /** The JavaScript `\s` class, which is also the set `String.prototype.trim` removes:
      tab, line feed, vertical tab, form feed, carriage return, space, no-break space,
      ogham space mark, the spaces U+2000..U+200A, line and paragraph separators,
      narrow no-break space, medium mathematical space, ideographic space and the BOM. */
  predicate IsSpace(c: char) {
    c == '\t' || c == '\n' || c == '\U{000B}' || c == '\U{000C}' || c == '\r' || c == ' '
    || c == '\U{00A0}' || c == '\U{1680}' || ('\U{2000}' <= c <= '\U{200A}')
    || c == '\U{2028}' || c == '\U{2029}' || c == '\U{202F}' || c == '\U{205F}'
    || c == '\U{3000}' || c == '\U{FEFF}'
  }

  predicate IsDigit(c: char) { '0' <= c <= '9' }
  predicate IsUpper(c: char) { 'A' <= c <= 'Z' }
  predicate IsLower(c: char) { 'a' <= c <= 'z' }
  predicate IsAlnum(c: char) { IsDigit(c) || IsUpper(c) || IsLower(c) }

  /** The JavaScript `\w` class (without the `u` flag): `[A-Za-z0-9_]`. */
  predicate IsWordChar(c: char) { IsAlnum(c) || c == '_' }

  predicate IsHexDigit(c: char) { IsDigit(c) || ('a' <= c <= 'f') || ('A' <= c <= 'F') }

  /** `toLowerCase` restricted to ASCII letters. */
  function LowerChar(c: char): (r: char)
    ensures !IsUpper(r)
    ensures IsUpper(c) ==> IsLower(r)
    ensures !IsUpper(c) ==> r == c
  {
    if IsUpper(c) then (c as int + 32) as char else c
  }

  function UpperChar(c: char): (r: char)
    ensures !IsLower(r)
    ensures IsLower(c) ==> IsUpper(r)
    ensures !IsLower(c) ==> r == c
  {
    if IsLower(c) then (c as int - 32) as char else c
  }

  function Lower(s: string): (r: string)
    ensures |r| == |s|
    ensures forall i :: 0 <= i < |s| ==> r[i] == LowerChar(s[i])
  {
    seq(|s|, i requires 0 <= i < |s| => LowerChar(s[i]))
  }

  /** `trimStart`: drops the leading `\s` characters. */
  function TrimStart(s: string): (r: string)
    ensures |r| <= |s| && r == s[|s| - |r|..]
    ensures r == [] || !IsSpace(r[0])
    ensures forall i :: 0 <= i < |s| - |r| ==> IsSpace(s[i])
  {
    if s != [] && IsSpace(s[0]) then TrimStart(s[1..]) else s
  }

  /** `trimEnd`: drops the trailing `\s` characters. */
  function TrimEnd(s: string): (r: string)
    ensures |r| <= |s| && r == s[..|r|]
    ensures r == [] || !IsSpace(r[|r| - 1])
    ensures forall i :: |r| <= i < |s| ==> IsSpace(s[i])
  {
    if s != [] && IsSpace(s[|s| - 1]) then TrimEnd(s[..|s| - 1]) else s
  }

  /** `String.prototype.trim`. */
  function Trim(s: string): (r: string)
    ensures |r| <= |s|
    ensures r == [] || (!IsSpace(r[0]) && !IsSpace(r[|r| - 1]))
  {
    var t := TrimStart(s);
    var r := TrimEnd(t);
    assert r == [] || r[0] == t[0];
    r
  }

  /** Every character of `s[lo..hi]` is whitespace. */
  predicate AllSpace(s: string, lo: nat, hi: nat)
    requires lo <= hi <= |s|
  {
    forall i :: lo <= i < hi ==> IsSpace(s[i])
  }

  /** Trimming removes whitespace only: the result is a contiguous slice of the input,
      with nothing but whitespace on either side. */
  lemma TrimIsSlice(s: string)
    ensures exists a, b ::
      (0 <= a <= b <= |s| && Trim(s) == s[a..b] && AllSpace(s, 0, a) && AllSpace(s, b, |s|))
  {
    var t := TrimStart(s);
    var a := |s| - |t|;
    var r := TrimEnd(t);
    var b := a + |r|;
    assert Trim(s) == s[a..b] by {
      assert t == s[a..] && r == t[..|r|];
    }
    assert AllSpace(s, 0, a);
    assert AllSpace(s, b, |s|) by {
      forall i | b <= i < |s| ensures IsSpace(s[i]) {
        assert s[i] == t[i - a];
      }
    }
  }

  lemma TrimIdempotent(s: string)
    ensures Trim(Trim(s)) == Trim(s)
  {
    var r := Trim(s);
    assert TrimStart(r) == r;
    assert TrimEnd(r) == r;
  }

  /** `trim()` yields the empty string exactly when every character is whitespace. */
  lemma TrimEmptyIff(s: string)
    ensures Trim(s) == [] <==> forall i :: 0 <= i < |s| ==> IsSpace(s[i])
  {
    var t := TrimStart(s);
    if Trim(s) == [] {
      assert t == [];
    }
  }

  predicate StartsWith(s: string, prefix: string) {
    |prefix| <= |s| && s[..|prefix|] == prefix
  }

  /** `Array.prototype.join(sep)`. */
  function Join(parts: seq<string>, sep: string): string
    decreases |parts|
  {
    if parts == [] then []
    else if |parts| == 1 then parts[0]
    else parts[0] + sep + Join(parts[1..], sep)
  }

  /** The length of the leading run of non-whitespace characters. */
  function RunLength(s: string): (n: nat)
    ensures n <= |s|
    ensures forall i :: 0 <= i < n ==> !IsSpace(s[i])
    ensures n == |s| || IsSpace(s[n])
  {
    if s == [] || IsSpace(s[0]) then 0 else 1 + RunLength(s[1..])
  }

  /** A non-empty run of non-whitespace characters. */
  predicate IsWord(w: string) {
    w != [] && forall j :: 0 <= j < |w| ==> !IsSpace(w[j])
  }

  /** The non-whitespace characters of `s`, in order. */
  function NonSpace(s: string): string {
    if s == [] then [] else (if IsSpace(s[0]) then [] else [s[0]]) + NonSpace(s[1..])
  }

  /** The pieces laid end to end. */
  function Concat(ws: seq<string>): string {
    if ws == [] then [] else ws[0] + Concat(ws[1..])
  }

  lemma {:induction false} NonSpaceAppend(a: string, b: string)
    ensures NonSpace(a + b) == NonSpace(a) + NonSpace(b)
  {
    if a == [] {
      assert a + b == b;
    } else {
      assert (a + b)[0] == a[0] && (a + b)[1..] == a[1..] + b;
      NonSpaceAppend(a[1..], b);
    }
  }

  lemma {:induction false} NonSpaceOfSpaces(s: string)
    requires forall i :: 0 <= i < |s| ==> IsSpace(s[i])
    ensures NonSpace(s) == []
  {
    if s != [] {
      NonSpaceOfSpaces(s[1..]);
    }
  }

  lemma {:induction false} NonSpaceOfWord(w: string)
    requires forall i :: 0 <= i < |w| ==> !IsSpace(w[i])
    ensures NonSpace(w) == w
  {
    if w != [] {
      NonSpaceOfWord(w[1..]);
    }
  }

  /** What is left after dropping the leading whitespace carries the same text. */
  lemma NonSpaceAfterTrimStart(s: string)
    ensures NonSpace(TrimStart(s)) == NonSpace(s)
  {
    var t := TrimStart(s);
    var k := |s| - |t|;
    assert s == s[..k] + t;
    NonSpaceAppend(s[..k], t);
    NonSpaceOfSpaces(s[..k]);
  }

  /** One step of `Words`: a leading run splits off the text of its remainder. */
  lemma NonSpaceOfRun(t: string, n: nat)
    requires n <= |t| && forall i :: 0 <= i < n ==> !IsSpace(t[i])
    ensures NonSpace(t) == t[..n] + NonSpace(t[n..])
  {
    assert t == t[..n] + t[n..];
    NonSpaceAppend(t[..n], t[n..]);
    NonSpaceOfWord(t[..n]);
  }

  /** The maximal runs of non-whitespace characters, in order: what
      `s.trim().split(/\s+/)` yields once empty pieces are dropped. The pieces hold all
      the text and only the text, there are none exactly when `s` is blank, and the
      pieces come back from their own join with any whitespace separator (`WordsOfJoin`). */
  function Words(s: string): (r: seq<string>)
    ensures forall w :: w in r ==> IsWord(w)
    ensures Concat(r) == NonSpace(s)
    ensures r == [] <==> forall i :: 0 <= i < |s| ==> IsSpace(s[i])
    decreases |s|
  {
    var t := TrimStart(s);
    NonSpaceAfterTrimStart(s);
    if t == [] then []
    else
      var n := RunLength(t);
      assert IsWord(t[..n]);
      NonSpaceOfRun(t, n);
      assert !IsSpace(s[|s| - |t|]);
      [t[..n]] + Words(t[n..])
  }

  lemma {:induction false} TrimStartAfterSpaces(sp: string, s: string)
    requires forall i :: 0 <= i < |sp| ==> IsSpace(sp[i])
    ensures TrimStart(sp + s) == TrimStart(s)
  {
    if sp == [] {
      assert sp + s == s;
    } else {
      assert (sp + s)[0] == sp[0] && (sp + s)[1..] == sp[1..] + s;
      TrimStartAfterSpaces(sp[1..], s);
    }
  }

  lemma TrimStartTwice(s: string)
    ensures TrimStart(TrimStart(s)) == TrimStart(s)
  {
  }

  /** The words of a text are those of the text without its leading whitespace. */
  lemma WordsAfterTrimStart(s: string)
    ensures Words(s) == Words(TrimStart(s))
  {
    TrimStartTwice(s);
  }

  /** Leading whitespace does not change the words. */
  lemma WordsAfterSpaces(sp: string, s: string)
    requires forall i :: 0 <= i < |sp| ==> IsSpace(sp[i])
    ensures Words(sp + s) == Words(s)
  {
    TrimStartAfterSpaces(sp, s);
    WordsAfterTrimStart(sp + s);
    WordsAfterTrimStart(s);
  }

  /** A word followed by whitespace and more text splits off as the first piece. */
  lemma WordsOfWordThen(w: string, rest: string)
    requires IsWord(w)
    requires rest == [] || IsSpace(rest[0])
    ensures Words(w + rest) == [w] + Words(rest)
  {
    var s := w + rest;
    assert TrimStart(s) == s;
    RunOfWord(w, rest);
    assert s[..|w|] == w && s[|w|..] == rest;
  }

  lemma {:induction false} RunOfWord(w: string, rest: string)
    requires forall j :: 0 <= j < |w| ==> !IsSpace(w[j])
    requires rest == [] || IsSpace(rest[0])
    ensures RunLength(w + rest) == |w|
  {
    if w != [] {
      assert (w + rest)[1..] == w[1..] + rest;
      RunOfWord(w[1..], rest);
    }
  }

  /** A word with a whitespace separator and more text after it splits off as the first
      piece, the separator vanishing. */
  lemma WordsOfSeparated(w: string, sep: string, rest: string)
    requires IsWord(w)
    requires sep != [] && forall i :: 0 <= i < |sep| ==> IsSpace(sep[i])
    ensures Words(w + (sep + rest)) == [w] + Words(rest)
  {
    WordsOfWordThen(w, sep + rest);
    WordsAfterSpaces(sep, rest);
  }

  lemma WordsOfWord(w: string)
    requires IsWord(w)
    ensures Words(w) == [w]
  {
    WordsOfWordThen(w, []);
    assert w + [] == w;
  }

  lemma JoinCons(w: string, tail: seq<string>, sep: string)
    requires tail != []
    ensures Join([w] + tail, sep) == w + (sep + Join(tail, sep))
  {
    var parts := [w] + tail;
    assert parts[0] == w && parts[1..] == tail;
    assert w + sep + Join(tail, sep) == w + (sep + Join(tail, sep));
  }

  /** Splitting the words joined by a whitespace separator gives the words back: the
      split keeps each maximal run whole. */
  lemma {:induction false} WordsOfJoin(ws: seq<string>, sep: string)
    requires forall w :: w in ws ==> IsWord(w)
    requires sep != [] && forall i :: 0 <= i < |sep| ==> IsSpace(sep[i])
    ensures Words(Join(ws, sep)) == ws
    decreases |ws|
  {
    if ws == [] {
    } else if |ws| == 1 {
      assert ws[0] in ws;
      WordsOfWord(ws[0]);
    } else {
      var tail := ws[1..];
      assert forall w :: w in tail ==> w in ws;
      assert ws[0] in ws;
      WordsOfJoin(tail, sep);
      WordsOfJoinStep(ws[0], tail, sep);
      assert [ws[0]] + tail == ws;
    }
  }

  /** The inductive step of `WordsOfJoin`: the first word splits off the joined text. */
  lemma WordsOfJoinStep(w: string, tail: seq<string>, sep: string)
    requires tail != [] && IsWord(w)
    requires sep != [] && forall i :: 0 <= i < |sep| ==> IsSpace(sep[i])
    requires Words(Join(tail, sep)) == tail
    ensures Words(Join([w] + tail, sep)) == [w] + tail
  {
    var rest := Join(tail, sep);
    WordsOfSeparated(w, sep, rest);
    JoinCons(w, tail, sep);
  }

  function DigitChar(d: nat): (c: char)
    requires d < 10
    ensures IsDigit(c)
  {
    ('0' as int + d) as char
  }

  /** The number a string of decimal digits denotes. */
  function DecimalValue(s: string): nat
    requires forall i :: 0 <= i < |s| ==> IsDigit(s[i])
  {
    if s == [] then 0
    else
      assert IsDigit(s[|s| - 1]);
      10 * DecimalValue(s[..|s| - 1]) + (s[|s| - 1] as int - '0' as int)
  }

  /** The decimal text of a natural number, as a template literal prints it: digits that
      denote `n`, with no leading zero except for zero itself. */
  function NatToString(n: nat): (r: string)
    ensures r != []
    ensures forall i :: 0 <= i < |r| ==> IsDigit(r[i])
    ensures DecimalValue(r) == n
    ensures r[0] == '0' ==> r == "0"
  {
    if n < 10 then [DigitChar(n)]
    else
      var r := NatToString(n / 10) + [DigitChar(n % 10)];
      assert r[..|r| - 1] == NatToString(n / 10);
      r
  }
}
