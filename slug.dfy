/** `toSlug`, the title-to-URL-segment transform shared by posts and tags. */
module Slug {
  import opened Text
  import opened Seqs

  /** `[\w\s-]`: the characters the third step keeps. */
  predicate Kept(c: char) { IsWordChar(c) || IsSpace(c) || c == '-' }

  /** `[\s_]`: the characters whose runs the fourth step turns into one dash. */
  predicate IsSeparator(c: char) { IsSpace(c) || c == '_' }

  /** The characters a slug is made of. */
  predicate SlugChar(c: char) { IsLower(c) || IsDigit(c) || c == '-' }

  /** A slug: slug characters only, and no dash at either end. */
  predicate IsSlug(s: string) {
    (forall c :: c in s ==> SlugChar(c)) && (s == [] || (s[0] != '-' && s[|s| - 1] != '-'))
  }

  /** The length of the leading run of separators. */
  function SeparatorRun(s: string): (n: nat)
    ensures n <= |s|
    ensures forall i :: 0 <= i < n ==> IsSeparator(s[i])
    ensures n == |s| || !IsSeparator(s[n])
  {
    if s == [] || !IsSeparator(s[0]) then 0 else 1 + SeparatorRun(s[1..])
  }

  /** `.replace(/[\s_]+/g, '-')`. */
  function CollapseSeparators(s: string): string
    decreases |s|
  {
    if s == [] then []
    else if IsSeparator(s[0]) then "-" + CollapseSeparators(s[SeparatorRun(s)..])
    else [s[0]] + CollapseSeparators(s[1..])
  }

  /** Collapsing introduces no character but the dash, and leaves no separator. */
  lemma {:induction false} CollapseChars(s: string)
    ensures forall c :: c in CollapseSeparators(s) ==> c == '-' || (c in s && !IsSeparator(c))
    decreases |s|
  {
    if s != [] {
      var n := if IsSeparator(s[0]) then SeparatorRun(s) else 1;
      CollapseChars(s[n..]);
      assert forall c :: c in s[n..] ==> c in s;
    }
  }

  function DropLeadingDashes(s: string): (r: string)
    ensures |r| <= |s| && r == s[|s| - |r|..]
    ensures r == [] || r[0] != '-'
    ensures forall i :: 0 <= i < |s| - |r| ==> s[i] == '-'
  {
    if s != [] && s[0] == '-' then DropLeadingDashes(s[1..]) else s
  }

  function DropTrailingDashes(s: string): (r: string)
    ensures |r| <= |s| && r == s[..|r|]
    ensures r == [] || r[|r| - 1] != '-'
    ensures forall i :: |r| <= i < |s| ==> s[i] == '-'
  {
    if s != [] && s[|s| - 1] == '-' then DropTrailingDashes(s[..|s| - 1]) else s
  }

  /** `.replace(/^-+|-+$/g, '')`. */
  function StripDashes(s: string): (r: string)
    ensures r == [] || (r[0] != '-' && r[|r| - 1] != '-')
    ensures forall c :: c in r ==> c in s
  {
    var t := DropLeadingDashes(s);
    var r := DropTrailingDashes(t);
    assert r == [] || r[0] == t[0];
    assert forall c :: c in r ==> c in t;
    r
  }

  /** `toSlug`: lower-case, trim, drop the characters outside `[\w\s-]`, turn each run of
      whitespace and underscores into a dash, then strip the dashes at both ends. */
  function ToSlug(title: string): (r: string)
    ensures IsSlug(r)
  {
    var lowered := Lower(title);
    var trimmed := Trim(lowered);
    var kept := Filter(Kept, trimmed);
    var collapsed := CollapseSeparators(kept);
    TrimKeepsChars(lowered);
    CollapseChars(kept);
    assert forall c :: c in collapsed ==> SlugChar(c) by {
      forall c | c in collapsed ensures SlugChar(c) {
        if c != '-' {
          var i :| 0 <= i < |lowered| && lowered[i] == c;
          assert !IsUpper(c);
        }
      }
    }
    StripDashes(collapsed)
  }

  lemma TrimKeepsChars(s: string)
    ensures forall c :: c in Trim(s) ==> c in s
  {
    var t := TrimStart(s);
    var r := TrimEnd(t);
    assert Trim(s) == r;
    forall c | c in r ensures c in s {
      var i :| 0 <= i < |r| && r[i] == c;
      assert t[i] == c;
      assert s[|s| - |t| + i] == c;
    }
  }

  /** A string that is already a slug is its own slug. */
  lemma SlugIsFixedPoint(s: string)
    requires IsSlug(s)
    ensures ToSlug(s) == s
  {
    SlugLowerTrim(s);
    SlugKept(s);
    SlugCollapse(s);
    ToSlugStages(s);
  }

  lemma SlugLowerTrim(s: string)
    requires IsSlug(s)
    ensures Trim(Lower(s)) == s
  {
    LowerFixed(s);
    if s != [] {
      assert s[0] in s && s[|s| - 1] in s;
    }
    TrimFixed(s);
  }

  lemma SlugKept(s: string)
    requires IsSlug(s)
    ensures Filter(Kept, s) == s
  {
    FilterAll(Kept, s);
  }

  lemma SlugCollapse(s: string)
    requires IsSlug(s)
    ensures StripDashes(CollapseSeparators(s)) == s
  {
    CollapseNoSeparator(s);
    StripFixed(s);
  }

  lemma LowerFixed(s: string)
    requires forall c :: c in s ==> !IsUpper(c)
    ensures Lower(s) == s
  {
    forall i | 0 <= i < |s| ensures Lower(s)[i] == s[i] {
      assert s[i] in s;
    }
  }

  lemma TrimFixed(s: string)
    requires s == [] || (!IsSpace(s[0]) && !IsSpace(s[|s| - 1]))
    ensures Trim(s) == s
  {
    assert TrimStart(s) == s;
    assert TrimEnd(s) == s;
  }

  lemma StripFixed(s: string)
    requires s == [] || (s[0] != '-' && s[|s| - 1] != '-')
    ensures StripDashes(s) == s
  {
    assert DropLeadingDashes(s) == s;
    assert DropTrailingDashes(s) == s;
  }

  lemma {:induction false} CollapseNoSeparator(s: string)
    requires forall c :: c in s ==> !IsSeparator(c)
    ensures CollapseSeparators(s) == s
  {
    if s != [] {
      assert s[0] in s;
      assert forall c :: c in s[1..] ==> c in s;
      CollapseNoSeparator(s[1..]);
    }
  }

  /** `toSlug` is idempotent. */
  lemma ToSlugIdempotent(title: string)
    ensures ToSlug(ToSlug(title)) == ToSlug(title)
  {
    SlugIsFixedPoint(ToSlug(title));
  }

  lemma {:induction false} CollapsePlain(a: string, b: string)
    requires forall c :: c in a ==> !IsSeparator(c)
    ensures CollapseSeparators(a + b) == a + CollapseSeparators(b)
  {
    if a != [] {
      assert a[0] in a;
      assert (a + b)[0] == a[0] && !IsSeparator(a[0]);
      assert (a + b)[1..] == a[1..] + b;
      assert forall c :: c in a[1..] ==> c in a;
      CollapsePlain(a[1..], b);
      assert a == [a[0]] + a[1..];
    } else {
      assert a + b == b;
    }
  }

  lemma {:induction false} SeparatorRunOf(seps: string, b: string)
    requires forall c :: c in seps ==> IsSeparator(c)
    requires b == [] || !IsSeparator(b[0])
    ensures SeparatorRun(seps + b) == |seps|
  {
    if seps != [] {
      assert seps[0] in seps;
      assert (seps + b)[1..] == seps[1..] + b;
      assert forall c :: c in seps[1..] ==> c in seps;
      SeparatorRunOf(seps[1..], b);
    } else {
      assert seps + b == b;
    }
  }

  /** A whole run of separators becomes one dash. */
  lemma CollapseRun(seps: string, b: string)
    requires seps != [] && forall c :: c in seps ==> IsSeparator(c)
    requires b == [] || !IsSeparator(b[0])
    ensures CollapseSeparators(seps + b) == "-" + CollapseSeparators(b)
  {
    SeparatorRunOf(seps, b);
    assert seps[0] in seps;
    assert (seps + b)[|seps|..] == b;
  }

  /** `w1 + seps + w2` collapses to `w1-w2` when the words hold no separator. */
  lemma CollapseTwoWords(w1: string, seps: string, w2: string)
    requires forall c :: c in w1 ==> !IsSeparator(c)
    requires w2 != [] && forall c :: c in w2 ==> !IsSeparator(c)
    requires seps != [] && forall c :: c in seps ==> IsSeparator(c)
    ensures CollapseSeparators(w1 + (seps + w2)) == w1 + ("-" + w2)
  {
    CollapsePlain(w1, seps + w2);
    assert w2[0] in w2;
    CollapseRun(seps, w2);
    CollapseNoSeparator(w2);
  }

  /** `toSlug`, unfolded into its five stages. */
  lemma ToSlugStages(title: string)
    ensures ToSlug(title) == StripDashes(CollapseSeparators(Filter(Kept, Trim(Lower(title)))))
  {
  }

  /** A word of a slug: a non-empty run of lower-case letters and digits. */
  predicate Word(w: string) {
    w != [] && forall i :: 0 <= i < |w| ==> IsLower(w[i]) || IsDigit(w[i])
  }

  /** A run of white space, possibly empty. */
  predicate Spaces(s: string) {
    forall i :: 0 <= i < |s| ==> IsSpace(s[i])
  }

  lemma LowerConcat(a: string, b: string)
    ensures Lower(a + b) == Lower(a) + Lower(b)
  {
    var l, r := Lower(a + b), Lower(a) + Lower(b);
    forall i | 0 <= i < |l| ensures l[i] == r[i] {
      if i < |a| {
        assert (a + b)[i] == a[i];
      } else {
        assert (a + b)[i] == b[i - |a|];
      }
    }
  }

  lemma LowerSpaces(s: string)
    requires Spaces(s)
    ensures Lower(s) == s
  {
    forall c | c in s ensures !IsUpper(c) {
      var i :| 0 <= i < |s| && s[i] == c;
    }
    LowerFixed(s);
  }

  lemma WordChars(w: string)
    requires Word(w)
    ensures forall c :: c in w ==> Kept(c) && !IsSeparator(c) && c != '-'
  {
    forall c | c in w ensures Kept(c) && !IsSeparator(c) && c != '-' {
      var i :| 0 <= i < |w| && w[i] == c;
    }
  }

  lemma {:induction false} TrimStartSpaces(a: string, b: string)
    requires Spaces(a)
    requires b == [] || !IsSpace(b[0])
    ensures TrimStart(a + b) == b
  {
    if a == [] {
      assert a + b == b;
    } else {
      assert (a + b)[0] == a[0] && (a + b)[1..] == a[1..] + b;
      TrimStartSpaces(a[1..], b);
    }
  }

  lemma {:induction false} TrimEndSpaces(a: string, b: string)
    requires a == [] || !IsSpace(a[|a| - 1])
    requires Spaces(b)
    ensures TrimEnd(a + b) == a
    decreases |b|
  {
    if b == [] {
      assert a + b == a;
    } else {
      var c := a + b;
      assert c[|c| - 1] == b[|b| - 1];
      assert c[..|c| - 1] == a + b[..|b| - 1];
      TrimEndSpaces(a, b[..|b| - 1]);
    }
  }

  /** Two words with white space between them become the two words joined by one dash,
      however long the white space. */
  lemma JoinsWords(w1: string, sp: string, w2: string)
    requires Word(Lower(w1)) && Word(Lower(w2))
    requires sp != [] && Spaces(sp)
    ensures ToSlug(w1 + (sp + w2)) == Lower(w1) + ("-" + Lower(w2))
  {
    var a, b := Lower(w1), Lower(w2);
    LowerConcat(w1, sp + w2);
    LowerConcat(sp, w2);
    LowerSpaces(sp);
    assert Lower(w1 + (sp + w2)) == a + (sp + b);
    JoinedKept(a, sp, b);
    JoinedCollapse(a, sp, b);
    ToSlugStages(w1 + (sp + w2));
  }

  lemma JoinedKept(a: string, sp: string, b: string)
    requires Word(a) && Word(b) && Spaces(sp)
    ensures Filter(Kept, Trim(a + (sp + b))) == a + (sp + b)
  {
    JoinedTrim(a, sp, b);
    JoinedFilter(a, sp, b);
  }

  lemma JoinedTrim(a: string, sp: string, b: string)
    requires Word(a) && Word(b)
    ensures Trim(a + (sp + b)) == a + (sp + b)
  {
    var s := a + (sp + b);
    assert s[0] == a[0] && s[|s| - 1] == b[|b| - 1];
    TrimFixed(s);
  }

  lemma JoinedFilter(a: string, sp: string, b: string)
    requires Word(a) && Word(b) && Spaces(sp)
    ensures Filter(Kept, a + (sp + b)) == a + (sp + b)
  {
    WordChars(a);
    WordChars(b);
    assert forall c :: c in sp ==> IsSpace(c);
    FilterAll(Kept, a + (sp + b));
  }

  lemma JoinedCollapse(a: string, sp: string, b: string)
    requires Word(a) && Word(b) && sp != [] && Spaces(sp)
    ensures StripDashes(CollapseSeparators(a + (sp + b))) == a + ("-" + b)
  {
    WordChars(a);
    WordChars(b);
    assert forall c :: c in sp ==> IsSeparator(c);
    CollapseTwoWords(a, sp, b);
    var r := a + ("-" + b);
    assert a[0] in a && b[|b| - 1] in b;
    assert r[0] == a[0] && r[|r| - 1] == b[|b| - 1];
    StripFixed(r);
  }

  /** White space around a word is trimmed away. */
  lemma TrimsPadding(sp1: string, w: string, sp2: string)
    requires Spaces(sp1) && Spaces(sp2) && Word(Lower(w))
    ensures ToSlug(sp1 + (w + sp2)) == Lower(w)
  {
    var a := Lower(w);
    LowerConcat(sp1, w + sp2);
    LowerConcat(w, sp2);
    LowerSpaces(sp1);
    LowerSpaces(sp2);
    assert Lower(sp1 + (w + sp2)) == sp1 + (a + sp2);
    TrimStartSpaces(sp1, a + sp2);
    TrimEndSpaces(a, sp2);
    assert Trim(sp1 + (a + sp2)) == a;
    WordChars(a);
    FilterAll(Kept, a);
    CollapseNoSeparator(a);
    StripFixed(a);
    ToSlugStages(sp1 + (w + sp2));
  }

  /** A character outside `[\w\s-]` between two non-blank ends is dropped: the slug is
      that of the title without it. */
  lemma DropsUnkept(x: string, c: char, y: string)
    requires Lower(x) != [] && !IsSpace(Lower(x)[0])
    requires Lower(y) != [] && !IsSpace(Lower(y)[|Lower(y)| - 1])
    requires !Kept(LowerChar(c))
    ensures ToSlug(x + ([c] + y)) == ToSlug(x + y)
  {
    var a, b := Lower(x), Lower(y);
    LowerConcat(x, [c] + y);
    LowerConcat([c], y);
    LowerConcat(x, y);
    assert Lower([c]) == [LowerChar(c)];
    var s, t := a + ([LowerChar(c)] + b), a + b;
    assert s[0] == a[0] && s[|s| - 1] == b[|b| - 1];
    assert t[0] == a[0] && t[|t| - 1] == b[|b| - 1];
    TrimFixed(s);
    TrimFixed(t);
    FilterConcat(Kept, a, [LowerChar(c)] + b);
    FilterConcat(Kept, [LowerChar(c)], b);
    FilterConcat(Kept, a, b);
    assert Filter(Kept, [LowerChar(c)]) == [];
    assert [] + Filter(Kept, b) == Filter(Kept, b);
    ToSlugStages(x + ([c] + y));
    ToSlugStages(x + y);
  }

  /** A character outside `[\w\s-]` at the end of a title with non-blank ends is
      dropped. */
  lemma DropsTrailingUnkept(x: string, c: char)
    requires Lower(x) != [] && !IsSpace(Lower(x)[0]) && !IsSpace(Lower(x)[|Lower(x)| - 1])
    requires !Kept(LowerChar(c))
    ensures ToSlug(x + [c]) == ToSlug(x)
  {
    var a := Lower(x);
    LowerConcat(x, [c]);
    assert Lower([c]) == [LowerChar(c)];
    var s := a + [LowerChar(c)];
    assert s[0] == a[0] && !IsSpace(s[|s| - 1]);
    TrimFixed(s);
    TrimFixed(a);
    FilterConcat(Kept, a, [LowerChar(c)]);
    assert Filter(Kept, [LowerChar(c)]) == [];
    assert Filter(Kept, a) + [] == Filter(Kept, a);
    ToSlugStages(x + [c]);
    ToSlugStages(x);
  }
}
