/** URL slugs for names written in Serbian Latin: `generateSlug`, and the shorter chain the
    admin panel inlines when it creates a category. */
module Slug {

  /** The characters a slug may keep. */
  predicate IsSlugChar(c: char)
  {
    ('a' <= c <= 'z') || ('0' <= c <= '9') || c == '-'
  }

  /** The characters of the regular-expression class `\s`: the ASCII white space, the
      Unicode space separators, the line and paragraph separators and the byte-order mark. */
  predicate IsSpace(c: char)
  {
    c == ' ' || c == '\t' || c == '\n' || c == '\r' || c == '\U{B}' || c == '\U{C}' ||
    c == '\U{A0}' || c == '\U{1680}' || ('\U{2000}' <= c <= '\U{200A}') ||
    c == '\U{2028}' || c == '\U{2029}' || c == '\U{202F}' || c == '\U{205F}' ||
    c == '\U{3000}' || c == '\U{FEFF}'
  }

  predicate IsHyphen(c: char)
  {
    c == '-'
  }

  /** `toLowerCase` on the letters that matter here: ASCII capitals and the five Serbian
      capitals with diacritics. */
  function LowerChar(c: char): (r: char)
    ensures 'A' <= c <= 'Z' ==> 'a' <= r <= 'z'
    ensures !('A' <= c <= 'Z') && IsSlugChar(c) ==> r == c
    ensures !IsSpace(c) ==> !IsSpace(r)
    ensures IsSpace(c) ==> r == c
  {
    if 'A' <= c <= 'Z' then (c as int + 32) as char
    else if c == 'Č' then 'č'
    else if c == 'Ć' then 'ć'
    else if c == 'Š' then 'š'
    else if c == 'Ž' then 'ž'
    else if c == 'Đ' then 'đ'
    else c
  }

  function Lower(s: string): (r: string)
    ensures |r| == |s|
  {
    seq(|s|, i requires 0 <= i < |s| => LowerChar(s[i]))
  }

  /** The four diacritic replacements `[čć]`→c, `[šŠ]`→s, `[žŽ]`→z, `[đĐ]`→dj. Each one
      writes plain ASCII letters that no later replacement matches, so doing all four in
      one pass over the characters is the same as doing them one after another. */
  function TranslitChar(c: char): (r: string)
    ensures 1 <= |r| <= 2
  {
    if c == 'č' || c == 'ć' then "c"
    else if c == 'š' || c == 'Š' then "s"
    else if c == 'ž' || c == 'Ž' then "z"
    else if c == 'đ' || c == 'Đ' then "dj"
    else [c]
  }

  function Translit(s: string): string
    decreases |s|
  {
    if s == [] then [] else TranslitChar(s[0]) + Translit(s[1..])
  }

  /** Replaces every maximal run of characters satisfying `p` by the single character `c`
      (`replace(/p+/g, c)`); `inRun` says the previous character already belonged to a
      replaced run. */
  function Runs(s: string, p: char -> bool, c: char, inRun: bool): string
    decreases |s|
  {
    if s == [] then []
    else if p(s[0]) then (if inRun then [] else [c]) + Runs(s[1..], p, c, true)
    else [s[0]] + Runs(s[1..], p, c, false)
  }

  /** What a run replacement leaves: the replacement character or characters of the input
      outside the class, never two replacement characters in a row when the replacement is
      itself in the class, and no longer than the input. */
  lemma {:induction false} RunsShape(s: string, p: char -> bool, c: char, inRun: bool)
    ensures forall i :: 0 <= i < |Runs(s, p, c, inRun)| ==>
      Runs(s, p, c, inRun)[i] == c || (!p(Runs(s, p, c, inRun)[i]) && Runs(s, p, c, inRun)[i] in s)
    ensures p(c) ==> forall i :: 0 <= i < |Runs(s, p, c, inRun)| - 1 ==>
      !(Runs(s, p, c, inRun)[i] == c && Runs(s, p, c, inRun)[i + 1] == c)
    ensures p(c) && inRun && Runs(s, p, c, inRun) != [] ==> Runs(s, p, c, inRun)[0] != c
    ensures |Runs(s, p, c, inRun)| <= |s|
    decreases |s|
  {
    if s != [] {
      var rest := Runs(s[1..], p, c, p(s[0]));
      RunsShape(s[1..], p, c, p(s[0]));
      var r := Runs(s, p, c, inRun);
      var head := if p(s[0]) then (if inRun then [] else [c]) else [s[0]];
      assert r == head + rest;
      forall i | 0 <= i < |r| ensures r[i] == c || (!p(r[i]) && r[i] in s) {
        if i >= |head| {
          assert r[i] == rest[i - |head|];
          if rest[i - |head|] != c {
            assert rest[i - |head|] in s[1..];
          }
        }
      }
      if p(c) {
        forall i | 0 <= i < |r| - 1 ensures !(r[i] == c && r[i + 1] == c) {
          if i >= |head| {
            assert r[i] == rest[i - |head|] && r[i + 1] == rest[i + 1 - |head|];
          } else if |head| == 1 && rest != [] {
            assert r[i + 1] == rest[0];
          }
        }
      }
    }
  }

  function ReplaceRuns(s: string, p: char -> bool, c: char): string
  {
    Runs(s, p, c, false)
  }

  /** `replace(/[^a-z0-9-]/g, '')`. */
  function Strip(s: string): (r: string)
    ensures forall i :: 0 <= i < |r| ==> IsSlugChar(r[i]) && r[i] in s
    ensures |r| <= |s|
    decreases |s|
  {
    if s == [] then []
    else if IsSlugChar(s[0]) then [s[0]] + Strip(s[1..])
    else Strip(s[1..])
  }

  /** `replace(/^-|-$/g, '')`: one hyphen off each end. */
  function Trim(s: string): string
  {
    var t := if s != [] && s[0] == '-' then s[1..] else s;
    if t != [] && t[|t| - 1] == '-' then t[..|t| - 1] else t
  }

  predicate NoDoubleHyphen(s: string)
  {
    forall i :: 0 <= i < |s| - 1 ==> !(s[i] == '-' && s[i + 1] == '-')
  }

  /** A well-formed slug: slug characters only, no two hyphens in a row, and no hyphen at
      either end. */
  predicate IsSlug(s: string)
  {
    (forall i :: 0 <= i < |s| ==> IsSlugChar(s[i])) && NoDoubleHyphen(s) &&
    (s != [] ==> s[0] != '-' && s[|s| - 1] != '-')
  }

  /** The chain shared by both slug builders: lower-case, transliterate, white-space runs
      to one hyphen, and drop everything outside `[a-z0-9-]`. It is the whole of the
      category slug the admin panel computes. */
  function Normalize(name: string): (r: string)
    ensures forall i :: 0 <= i < |r| ==> IsSlugChar(r[i])
    ensures |r| <= |Translit(Lower(name))|
  {
    RunsShape(Translit(Lower(name)), IsSpace, '-', false);
    Strip(ReplaceRuns(Translit(Lower(name)), IsSpace, '-'))
  }

  lemma {:induction false} TrimKeeps(s: string)
    requires forall i :: 0 <= i < |s| ==> IsSlugChar(s[i])
    requires NoDoubleHyphen(s)
    ensures IsSlug(Trim(s))
  {
    var t := if s != [] && s[0] == '-' then s[1..] else s;
    assert forall i :: 0 <= i < |t| ==> IsSlugChar(t[i]) by {
      forall i | 0 <= i < |t| ensures IsSlugChar(t[i]) {
        if s != [] && s[0] == '-' { assert t[i] == s[i + 1]; }
      }
    }
    assert NoDoubleHyphen(t) by {
      forall i | 0 <= i < |t| - 1 ensures !(t[i] == '-' && t[i + 1] == '-') {
        if s != [] && s[0] == '-' { assert t[i] == s[i + 1] && t[i + 1] == s[i + 2]; }
      }
    }
    assert t != [] ==> t[0] != '-' by {
      if t != [] && s != [] && s[0] == '-' { assert t[0] == s[1]; }
    }
    var r := Trim(s);
    assert r == if t != [] && t[|t| - 1] == '-' then t[..|t| - 1] else t;
    if t != [] && t[|t| - 1] == '-' {
      assert forall i :: 0 <= i < |r| ==> r[i] == t[i];
      if |t| >= 2 { assert t[|t| - 2] != '-'; }
    }
  }

  /** `generateSlug`. */
  function GenerateSlug(name: string): (r: string)
    ensures IsSlug(r)
  {
    var n := Normalize(name);
    var collapsed := ReplaceRuns(n, IsHyphen, '-');
    RunsShape(n, IsHyphen, '-', false);
    assert forall i :: 0 <= i < |collapsed| ==> IsSlugChar(collapsed[i]) by {
      forall i | 0 <= i < |collapsed| ensures IsSlugChar(collapsed[i]) {
        if collapsed[i] != '-' {
          var k :| 0 <= k < |n| && n[k] == collapsed[i];
        }
      }
    }
    TrimKeeps(collapsed);
    Trim(collapsed)
  }

  // ---------------------------------------------------------------- idempotence

  lemma {:induction false} TranslitIdentity(s: string)
    requires forall i :: 0 <= i < |s| ==> IsSlugChar(s[i])
    ensures Translit(s) == s
    decreases |s|
  {
    if s != [] {
      assert forall i :: 0 <= i < |s[1..]| ==> s[1..][i] == s[i + 1];
      TranslitIdentity(s[1..]);
      assert TranslitChar(s[0]) == [s[0]];
    }
  }

  lemma {:induction false} RunsIdentity(s: string, p: char -> bool, c: char, inRun: bool)
    requires forall i :: 0 <= i < |s| ==> p(s[i]) ==> s[i] == c
    requires forall i :: 0 <= i < |s| - 1 ==> !(p(s[i]) && p(s[i + 1]))
    requires inRun ==> s == [] || !p(s[0])
    ensures Runs(s, p, c, inRun) == s
    decreases |s|
  {
    if s != [] {
      assert forall i :: 0 <= i < |s[1..]| ==> s[1..][i] == s[i + 1];
      RunsIdentity(s[1..], p, c, p(s[0]));
    }
  }

  lemma {:induction false} StripIdentity(s: string)
    requires forall i :: 0 <= i < |s| ==> IsSlugChar(s[i])
    ensures Strip(s) == s
    decreases |s|
  {
    if s != [] {
      assert forall i :: 0 <= i < |s[1..]| ==> s[1..][i] == s[i + 1];
      StripIdentity(s[1..]);
    }
  }

  lemma NormalizeFixed(s: string)
    requires forall i :: 0 <= i < |s| ==> IsSlugChar(s[i])
    ensures Normalize(s) == s
  {
    assert Lower(s) == s;
    TranslitIdentity(s);
    RunsIdentity(s, IsSpace, '-', false);
    StripIdentity(s);
  }

  /** A well-formed slug is its own slug. */
  lemma SlugFixed(s: string)
    requires IsSlug(s)
    ensures GenerateSlug(s) == s
  {
    NormalizeFixed(s);
    RunsIdentity(s, IsHyphen, '-', false);
    assert ReplaceRuns(Normalize(s), IsHyphen, '-') == s;
  }

  /** Applying `generateSlug` to its own output changes nothing. */
  lemma GenerateSlugIdempotent(name: string)
    ensures GenerateSlug(GenerateSlug(name)) == GenerateSlug(name)
  {
    SlugFixed(GenerateSlug(name));
  }

  // ---------------------------------------------------------------- characters

  /** After lower-casing, each diacritic, in either case, becomes its ASCII spelling. */
  lemma Diacritics(c: char)
    requires c in "čćšžđČĆŠŽĐ"
    ensures TranslitChar(LowerChar(c)) ==
      if c in "čćČĆ" then "c" else if c in "šŠ" then "s" else if c in "žŽ" then "z" else "dj"
  {
  }

  /** After the white-space step no white space is left, and every run of it became one
      hyphen: the step never lengthens the text. */
  lemma SpacesGone(s: string)
    ensures forall i :: 0 <= i < |ReplaceRuns(s, IsSpace, '-')| ==> !IsSpace(ReplaceRuns(s, IsSpace, '-')[i])
    ensures |ReplaceRuns(s, IsSpace, '-')| <= |s|
  {
    RunsShape(s, IsSpace, '-', false);
  }

  /** Whether the text after `u` starts inside a run: it does when `u` ends with a
      character of the class (or, for an empty `u`, when the text before it did). */
  function EndsInRun(u: string, p: char -> bool, inRun: bool): bool
  {
    if u == [] then inRun else p(u[|u| - 1])
  }

  /** The run replacement works piece by piece: the second piece only needs to know whether
      the first ended inside a run. */
  lemma {:induction false} RunsAppend(u: string, x: string, p: char -> bool, c: char, inRun: bool)
    ensures Runs(u + x, p, c, inRun) == Runs(u, p, c, inRun) + Runs(x, p, c, EndsInRun(u, p, inRun))
    decreases |u|
  {
    if u == [] {
      assert u + x == x;
    } else {
      assert (u + x)[0] == u[0] && (u + x)[1..] == u[1..] + x;
      RunsAppend(u[1..], x, p, c, p(u[0]));
      if |u| > 1 {
        assert u[1..][|u| - 2] == u[|u| - 1];
      }
    }
  }

  /** A non-empty run of the class becomes one replacement character, or nothing when the
      text before it already ended inside a run. */
  lemma {:induction false} RunCollapses(w: string, p: char -> bool, c: char, inRun: bool)
    requires w != [] && forall i :: 0 <= i < |w| ==> p(w[i])
    ensures Runs(w, p, c, inRun) == if inRun then [] else [c]
    decreases |w|
  {
    if |w| > 1 {
      RunCollapses(w[1..], p, c, true);
    }
  }

  /** Text with no character of the class passes unchanged. */
  lemma {:induction false} OutsideRunsKept(v: string, p: char -> bool, c: char, inRun: bool)
    requires forall i :: 0 <= i < |v| ==> !p(v[i])
    ensures Runs(v, p, c, inRun) == v
    decreases |v|
  {
    if v != [] {
      OutsideRunsKept(v[1..], p, c, false);
    }
  }

  lemma RunsStartOutside(v: string, p: char -> bool, c: char)
    requires v == [] || !p(v[0])
    ensures Runs(v, p, c, true) == Runs(v, p, c, false)
  {
  }

  /** `replace(/p+/g, c)` on any text: a maximal run `w` of the class between `u` and `v`
      becomes exactly one `c`, and the text on either side is replaced on its own. With
      `OutsideRunsKept` this says every maximal run becomes one `c` and every other
      character is kept, in order. */
  lemma RunBecomesOne(u: string, w: string, v: string, p: char -> bool, c: char)
    requires w != [] && forall i :: 0 <= i < |w| ==> p(w[i])
    requires u == [] || !p(u[|u| - 1])
    requires v == [] || !p(v[0])
    ensures ReplaceRuns(u + w + v, p, c) == ReplaceRuns(u, p, c) + [c] + ReplaceRuns(v, p, c)
  {
    assert u + w + v == u + (w + v);
    assert !EndsInRun(u, p, false);
    RunsAppend(u, w + v, p, c, false);
    assert EndsInRun(w, p, false);
    RunsAppend(w, v, p, c, false);
    RunCollapses(w, p, c, false);
    RunsStartOutside(v, p, c);
    calc {
      Runs(u + w + v, p, c, false);
      Runs(u, p, c, false) + Runs(w + v, p, c, false);
      Runs(u, p, c, false) + (Runs(w, p, c, false) + Runs(v, p, c, true));
      Runs(u, p, c, false) + [c] + Runs(v, p, c, false);
    }
  }

  /** The white-space step of `generateSlug` and of the category slug, for every input:
      each maximal white-space run becomes one hyphen; text without white space is kept. */
  lemma SpaceRunsBecomeOneHyphen(u: string, w: string, v: string)
    requires w != [] && forall i :: 0 <= i < |w| ==> IsSpace(w[i])
    requires u == [] || !IsSpace(u[|u| - 1])
    requires v == [] || !IsSpace(v[0])
    ensures ReplaceRuns(u + w + v, IsSpace, '-') == ReplaceRuns(u, IsSpace, '-') + "-" + ReplaceRuns(v, IsSpace, '-')
    ensures (forall i :: 0 <= i < |u| ==> !IsSpace(u[i])) ==> ReplaceRuns(u, IsSpace, '-') == u
  {
    RunBecomesOne(u, w, v, IsSpace, '-');
    if forall i :: 0 <= i < |u| ==> !IsSpace(u[i]) {
      OutsideRunsKept(u, IsSpace, '-', false);
    }
  }

  /** The collapse step of `generateSlug`, for every input: each maximal run of hyphens
      becomes one hyphen; text without hyphens is kept. */
  lemma HyphenRunsCollapse(u: string, w: string, v: string)
    requires w != [] && forall i :: 0 <= i < |w| ==> w[i] == '-'
    requires u == [] || u[|u| - 1] != '-'
    requires v == [] || v[0] != '-'
    ensures ReplaceRuns(u + w + v, IsHyphen, '-') == ReplaceRuns(u, IsHyphen, '-') + "-" + ReplaceRuns(v, IsHyphen, '-')
    ensures '-' !in u ==> ReplaceRuns(u, IsHyphen, '-') == u
  {
    RunBecomesOne(u, w, v, IsHyphen, '-');
    if '-' !in u {
      OutsideRunsKept(u, IsHyphen, '-', false);
    }
  }

  lemma SpacesExample()
    ensures ReplaceRuns(" a - b ", IsSpace, '-') == "-a---b-"
  {
    var x := " a - b ";
    assert Runs(x[6..], IsSpace, '-', false) == "-";
    assert Runs(x[5..], IsSpace, '-', true) == "b-";
    assert Runs(x[4..], IsSpace, '-', false) == "-b-";
    assert Runs(x[3..], IsSpace, '-', false) == "--b-";
    assert Runs(x[2..], IsSpace, '-', false) == "---b-";
    assert Runs(x[1..], IsSpace, '-', true) == "a---b-";
  }

  lemma CollapseExample()
    ensures ReplaceRuns("-a---b-", IsHyphen, '-') == "-a-b-"
  {
    var n := "-a---b-";
    assert Runs(n[6..], IsHyphen, '-', false) == "-";
    assert Runs(n[5..], IsHyphen, '-', false) == "b-";
    assert Runs(n[4..], IsHyphen, '-', true) == "b-";
    assert Runs(n[3..], IsHyphen, '-', true) == "b-";
    assert Runs(n[2..], IsHyphen, '-', false) == "-b-";
    assert Runs(n[1..], IsHyphen, '-', true) == "a-b-";
  }

  lemma LowerExample()
    ensures Lower(" a - b ") == " a - b "
  {
    var x := " a - b ";
    forall i | 0 <= i < |x| ensures Lower(x)[i] == x[i] {
      assert IsSpace(x[i]) || IsSlugChar(x[i]);
    }
  }

  lemma TranslitExample()
    ensures Translit(" a - b ") == " a - b "
  {
    var x := " a - b ";
    assert TranslitChar(' ') == " " && TranslitChar('a') == "a";
    assert TranslitChar('-') == "-" && TranslitChar('b') == "b";
    assert Translit(x[6..]) == x[6..];
    assert Translit(x[5..]) == x[5..];
    assert Translit(x[4..]) == x[4..];
    assert Translit(x[3..]) == x[3..];
    assert Translit(x[2..]) == x[2..];
    assert Translit(x[1..]) == x[1..];
  }

  lemma NormalizeExample()
    ensures Normalize(" a - b ") == "-a---b-"
  {
    LowerExample();
    TranslitExample();
    SpacesExample();
    StripIdentity("-a---b-");
  }

  /** The category slug keeps the hyphens `generateSlug` would merge or trim. */
  lemma CategorySlugKeepsHyphens()
    ensures Normalize(" a - b ") == "-a---b-"
    ensures GenerateSlug(" a - b ") == "a-b"
  {
    NormalizeExample();
    CollapseExample();
    assert Trim("-a-b-") == "a-b";
  }
}
