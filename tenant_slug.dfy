/** Tenant.generate_slug_from_name (src/kp_dagger/models/base/tenant.py): lower-case the name,
    replace every run of characters outside [a-z0-9] by one hyphen, strip hyphens at both ends,
    then collapse runs of hyphens. The reference definition is "the alphanumeric words of the
    lower-cased name, joined by single hyphens". */
module TenantSlug {

  import opened Text

  const SlugMaxLength: nat := 100

  predicate IsSlugChar(c: char) { 'a' <= c <= 'z' || '0' <= c <= '9' }

  predicate AllSlugChars(s: string) { forall i :: 0 <= i < |s| ==> IsSlugChar(s[i]) }

  /** The rest of `s` after its leading characters outside [a-z0-9]. */
  function SkipGap(s: string): (r: string)
    ensures |r| <= |s|
    ensures r == [] || IsSlugChar(r[0])
    ensures forall i :: 0 <= i < |s| - |r| ==> !IsSlugChar(s[i])
  {
    if s == [] || IsSlugChar(s[0]) then s else SkipGap(s[1..])
  }

  /** The longest prefix of `s` made of [a-z0-9]. */
  function TakeRun(s: string): (r: string)
    ensures |r| <= |s| && AllSlugChars(r)
    ensures |r| == |s| || !IsSlugChar(s[|r|])
  {
    if s == [] || !IsSlugChar(s[0]) then [] else [s[0]] + TakeRun(s[1..])
  }

  lemma TakeRunPrefix(s: string)
    ensures TakeRun(s) == s[..|TakeRun(s)|]
  {
  }

  lemma TakeDropRun(s: string)
    ensures TakeRun(s) + DropRun(s) == s
  {
    TakeRunPrefix(s);
    assert s == s[..|TakeRun(s)|] + s[|TakeRun(s)|..];
  }

  function DropRun(s: string): (r: string)
    ensures |r| <= |s| && (s != [] && IsSlugChar(s[0]) ==> |r| < |s|)
    ensures r == [] || !IsSlugChar(r[0])
  {
    TakeRunPrefix(s);
    s[|TakeRun(s)|..]
  }

  /** `re.sub(r"[^a-z0-9]+", "-", s)`: runs of [a-z0-9] are copied, each maximal run of other
      characters becomes one hyphen. */
  function DashRuns(s: string): (r: string)
    decreases |s|
  {
    if s == [] then []
    else if IsSlugChar(s[0]) then TakeRun(s) + DashRuns(DropRun(s))
    else "-" + DashRuns(SkipGap(s))
  }

  function TrimLeading(s: string): (r: string)
    ensures r == [] || r[0] != '-'
  {
    if s != [] && s[0] == '-' then TrimLeading(s[1..]) else s
  }

  function TrimTrailing(s: string): (r: string)
    ensures r == [] || r[|r| - 1] != '-'
  {
    if s != [] && s[|s| - 1] == '-' then TrimTrailing(s[..|s| - 1]) else s
  }

  /** `re.sub(r"^-+|-+$", "", s)`. */
  function TrimDashes(s: string): string
  {
    TrimTrailing(TrimLeading(s))
  }

  function SkipDashes(s: string): (r: string)
    ensures |r| <= |s| && (r == [] || r[0] != '-')
  {
    if s != [] && s[0] == '-' then SkipDashes(s[1..]) else s
  }

  /** `re.sub(r"-+", "-", s)`. */
  function CollapseDashes(s: string): (r: string)
    decreases |s|
  {
    if s == [] then []
    else if s[0] == '-' then "-" + CollapseDashes(SkipDashes(s))
    else [s[0]] + CollapseDashes(s[1..])
  }

  /** Tenant.generate_slug_from_name. */
  function GenerateSlugFromName(name: string): string
  {
    CollapseDashes(TrimDashes(DashRuns(Lower(name))))
  }

  // ----- reference definition -----

  /** The maximal runs of [a-z0-9] in `s`, in order. */
  function Words(s: string): (ws: seq<string>)
    ensures forall w :: w in ws ==> w != [] && AllSlugChars(w)
    decreases |s|
  {
    var t := SkipGap(s);
    if t == [] then [] else [TakeRun(t)] + Words(DropRun(t))
  }

  /** The words joined by single hyphens. */
  function JoinWords(ws: seq<string>): string
  {
    if ws == [] then ""
    else if |ws| == 1 then ws[0]
    else ws[0] + "-" + JoinWords(ws[1..])
  }

  /** The shape the slug field's pattern `^[a-z0-9-]+$` admits, less the empty string, with
      no hyphen at either end and no two hyphens in a row. */
  predicate WellFormedSlug(s: string)
  {
    && (forall i :: 0 <= i < |s| ==> IsSlugChar(s[i]) || s[i] == '-')
    && (s != [] ==> IsSlugChar(s[0]) && IsSlugChar(s[|s| - 1]))
    && NoDoubleHyphen(s)
  }

  /** No two adjacent hyphens. */
  predicate NoDoubleHyphen(s: string)
  {
    forall i, j :: 0 <= i < |s| && j == i + 1 < |s| ==> !(s[i] == '-' && s[j] == '-')
  }

  lemma {:induction false} JoinWellFormed(ws: seq<string>)
    requires forall w :: w in ws ==> w != [] && AllSlugChars(w)
    ensures WellFormedSlug(JoinWords(ws))
    ensures JoinWords(ws) == [] <==> ws == []
  {
    if |ws| > 1 {
      assert ws[0] in ws;
      assert forall w :: w in ws[1..] ==> w in ws;
      JoinWellFormed(ws[1..]);
      var rest := JoinWords(ws[1..]);
      var j := ws[0] + "-" + rest;
      assert j == JoinWords(ws);
      forall i, k | 0 <= i < |j| && k == i + 1 < |j|
        ensures !(j[i] == '-' && j[k] == '-')
      {
        if i + 1 < |ws[0]| {
          assert IsSlugChar(j[i]);
        } else if i + 1 == |ws[0]| {
          assert IsSlugChar(j[i]);
        } else if i == |ws[0]| {
          assert j[i + 1] == rest[0];
        } else {
          assert j[i] == rest[i - |ws[0]| - 1] && j[i + 1] == rest[i - |ws[0]|];
        }
      }
    } else if |ws| == 1 {
      assert ws[0] in ws;
    }
  }

  // ----- proof that the three passes compute the reference -----

  /** The hyphen DashRuns puts before the first word. */
  function Lead(s: string): string
  {
    if s != [] && !IsSlugChar(s[0]) then "-" else ""
  }

  /** The hyphen DashRuns puts after the last word. */
  function Trail(s: string): string
  {
    if Words(s) != [] && !IsSlugChar(s[|s| - 1]) then "-" else ""
  }

  lemma SkipGapSuffix(s: string)
    ensures SkipGap(s) == s[|s| - |SkipGap(s)|..]
  {
  }

  lemma SkipGapOfWordStart(s: string)
    requires s == [] || IsSlugChar(s[0])
    ensures SkipGap(s) == s
  {
  }

  lemma NoWordsAllGap(s: string)
    requires Words(s) == []
    ensures forall i :: 0 <= i < |s| ==> !IsSlugChar(s[i])
  {
  }

  lemma {:induction false} DashRunsShape(s: string)
    ensures DashRuns(s) == Lead(s) + JoinWords(Words(s)) + Trail(s)
    decreases |s|
  {
    if s == [] {
    } else if !IsSlugChar(s[0]) {
      DashRunsShape(SkipGap(s));
      DashRunsGapStep(s);
    } else {
      DashRunsShape(DropRun(s));
      DashRunsRunStep(s);
    }
  }

  /** One step of DashRunsShape: a leading gap becomes the leading hyphen. */
  lemma DashRunsGapStep(s: string)
    requires s != [] && !IsSlugChar(s[0])
    requires var u := SkipGap(s); DashRuns(u) == Lead(u) + JoinWords(Words(u)) + Trail(u)
    ensures DashRuns(s) == Lead(s) + JoinWords(Words(s)) + Trail(s)
  {
    var u := SkipGap(s);
    GapStepEnds(s, u);
    assert DashRuns(s) == "-" + DashRuns(u);
    GapRegroup(JoinWords(Words(u)), Trail(u));
  }

  /** Skipping a leading gap keeps the words and the trailing hyphen and drops the leading one. */
  lemma GapStepEnds(s: string, u: string)
    requires s != [] && !IsSlugChar(s[0]) && u == SkipGap(s)
    ensures Words(s) == Words(u) && Lead(s) == "-" && Lead(u) == "" && Trail(s) == Trail(u)
  {
    SkipGapOfWordStart(u);
    if u != [] {
      SkipGapSuffix(s);
      assert s[|s| - 1] == u[|u| - 1];
    }
  }

  lemma GapRegroup(j: string, t: string)
    ensures "-" + ("" + j + t) == "-" + j + t
  {
  }

  lemma Regroup(a: string, b: string, c: string, d: string)
    ensures a + (b + c + d) == "" + (a + b + c) + d
  {
  }

  /** One step of DashRunsShape: a leading run becomes the first word. */
  lemma DashRunsRunStep(s: string)
    requires s != [] && IsSlugChar(s[0])
    requires var d := DropRun(s); DashRuns(d) == Lead(d) + JoinWords(Words(d)) + Trail(d)
    ensures DashRuns(s) == Lead(s) + JoinWords(Words(s)) + Trail(s)
  {
    var run, d := TakeRun(s), DropRun(s);
    TakeDropRun(s);
    assert Words(s) == [run] + Words(d) by {
      SkipGapOfWordStart(s);
    }
    assert DashRuns(s) == run + DashRuns(d);
    if d != [] {
      assert s[|s| - 1] == d[|d| - 1];
    }
    RunStepTail(s, run, d);
  }

  lemma RunStepTail(s: string, run: string, d: string)
    requires s != [] && IsSlugChar(s[0]) && run != [] && s == run + d
    requires d == [] || !IsSlugChar(d[0])
    requires d != [] ==> s[|s| - 1] == d[|d| - 1]
    requires Words(s) == [run] + Words(d)
    requires DashRuns(s) == run + DashRuns(d)
    requires DashRuns(d) == Lead(d) + JoinWords(Words(d)) + Trail(d)
    ensures DashRuns(s) == Lead(s) + JoinWords(Words(s)) + Trail(s)
  {
    if d == [] {
      assert s == run && Words(s) == [run] && DashRuns(s) == run;
      SingleRunShape(s, run);
    } else if Words(d) == [] {
      NoWordsAllGap(d);
      assert DashRuns(d) == "-";
      RunThenBareGap(s, run, d);
      assert DashRuns(s) == run + "-";
    } else {
      RunStepMoreWords(s, run, d);
    }
  }

  /** A string that is one run of [a-z0-9] is its own single word. */
  lemma SingleRunShape(s: string, run: string)
    requires s != [] && s == run && Words(s) == [run] && DashRuns(s) == run
    ensures DashRuns(s) == Lead(s) + JoinWords(Words(s)) + Trail(s)
  {
    assert run in Words(s);
    assert Lead(s) == "" && Trail(s) == "";
  }

  /** A run followed by a gap with no word: the word and one trailing hyphen. */
  lemma RunThenBareGap(s: string, run: string, d: string)
    requires s != [] && IsSlugChar(s[0]) && d != [] && !IsSlugChar(d[|d| - 1])
    requires s[|s| - 1] == d[|d| - 1]
    requires Words(s) == [run]
    ensures run + "-" == Lead(s) + JoinWords(Words(s)) + Trail(s)
  {
    assert Lead(s) == "" && Trail(s) == "-";
  }

  lemma RunStepMoreWords(s: string, run: string, d: string)
    requires s != [] && IsSlugChar(s[0]) && d != [] && !IsSlugChar(d[0])
    requires s[|s| - 1] == d[|d| - 1]
    requires Words(d) != [] && Words(s) == [run] + Words(d)
    requires DashRuns(s) == run + DashRuns(d)
    requires DashRuns(d) == Lead(d) + JoinWords(Words(d)) + Trail(d)
    ensures DashRuns(s) == Lead(s) + JoinWords(Words(s)) + Trail(s)
  {
    RunThenGapEnds(s, d);
    JoinCons(run, Words(d), Trail(d));
  }

  /** A string starting with a word and ending as its gap-led tail does gets no leading hyphen
      and the tail's trailing one. */
  lemma RunThenGapEnds(s: string, d: string)
    requires s != [] && IsSlugChar(s[0]) && d != [] && !IsSlugChar(d[0])
    requires s[|s| - 1] == d[|d| - 1] && Words(s) != [] && Words(d) != []
    ensures Lead(s) == "" && Lead(d) == "-" && Trail(s) == Trail(d)
  {
  }

  /** Joining a first word onto further words puts one hyphen between them. */
  lemma JoinCons(run: string, ws: seq<string>, t: string)
    requires ws != []
    ensures run + ("-" + JoinWords(ws) + t) == "" + JoinWords([run] + ws) + t
  {
    assert ([run] + ws)[1..] == ws;
  }

  lemma TrimAround(lead: string, j: string, trail: string)
    requires lead == "" || lead == "-"
    requires trail == "" || trail == "-"
    requires j == [] ==> trail == ""
    requires j != [] ==> j[0] != '-' && j[|j| - 1] != '-'
    ensures TrimDashes(lead + j + trail) == j
  {
    var x := lead + j + trail;
    var y := j + trail;
    if lead == "-" {
      assert x[1..] == y;
      assert TrimLeading(x) == TrimLeading(y);
    } else {
      assert x == y;
    }
    if j == [] {
      assert y == [];
    } else {
      assert y[0] == j[0];
      assert TrimLeading(y) == y;
      if trail == "-" {
        assert y[..|y| - 1] == j;
        assert TrimTrailing(y) == TrimTrailing(j);
      } else {
        assert y == j;
      }
    }
  }

  lemma {:induction false} CollapseNoDoubles(s: string)
    requires NoDoubleHyphen(s)
    ensures CollapseDashes(s) == s
    decreases |s|
  {
    if s != [] {
      CollapseNoDoubles(s[1..]);
      if s[0] == '-' {
        assert SkipDashes(s) == s[1..];
      }
      assert s == [s[0]] + s[1..];
    }
  }

  /** The slug is the alphanumeric words of the lower-cased name joined by single hyphens. */
  lemma SlugIsJoinedWords(name: string)
    ensures GenerateSlugFromName(name) == JoinWords(Words(Lower(name)))
  {
    PassesJoinWords(Lower(name));
  }

  /** The three regular-expression passes, on an already lower-cased string. */
  lemma PassesJoinWords(s: string)
    ensures CollapseDashes(TrimDashes(DashRuns(s))) == JoinWords(Words(s))
  {
    var ws := Words(s);
    var j := JoinWords(ws);
    DashRunsShape(s);
    JoinWellFormed(ws);
    assert j != [] ==> j[0] != '-' && j[|j| - 1] != '-';
    assert j == [] ==> Trail(s) == "";
    TrimAround(Lead(s), j, Trail(s));
    CollapseNoDoubles(j);
  }

  /** Every generated slug uses only [a-z0-9-], has no hyphen at either end and no two hyphens
      in a row; it is empty exactly when the name has no ASCII letter or digit. */
  lemma SlugWellFormed(name: string)
    ensures WellFormedSlug(GenerateSlugFromName(name))
    ensures GenerateSlugFromName(name) == [] <==> Words(Lower(name)) == []
  {
    SlugIsJoinedWords(name);
    JoinWellFormed(Words(Lower(name)));
  }

  /** Generating twice changes nothing: a slug is its own slug. */
  lemma SlugIdempotent(name: string)
    ensures GenerateSlugFromName(GenerateSlugFromName(name)) == GenerateSlugFromName(name)
  {
    SlugWellFormed(name);
    WellFormedSlugIsFixed(GenerateSlugFromName(name));
  }

  /** A well-formed slug passes through the generator unchanged. */
  lemma WellFormedSlugIsFixed(slug: string)
    requires WellFormedSlug(slug)
    ensures GenerateSlugFromName(slug) == slug
  {
    LowerOfSlugChars(slug);
    WellFormedDashRuns(slug);
    TrimWellFormed(slug);
    CollapseNoDoubles(slug);
  }

  lemma TrimWellFormed(slug: string)
    requires WellFormedSlug(slug)
    ensures TrimDashes(slug) == slug
  {
    TrimAround("", slug, "");
    assert "" + slug + "" == slug;
  }

  lemma LowerOfSlugChars(s: string)
    requires forall i :: 0 <= i < |s| ==> IsSlugChar(s[i]) || s[i] == '-'
    ensures Lower(s) == s
  {
    assert forall i :: 0 <= i < |s| ==> Lower(s)[i] == s[i];
  }

  lemma {:induction false} TakeRunOfWord(w: string, rest: string)
    requires AllSlugChars(w)
    requires rest == [] || !IsSlugChar(rest[0])
    ensures TakeRun(w + rest) == w && DropRun(w + rest) == rest
  {
    if w != [] {
      assert (w + rest)[1..] == w[1..] + rest;
      TakeRunOfWord(w[1..], rest);
      assert [w[0]] + w[1..] == w;
    }
  }

  lemma {:induction false} WellFormedDashRuns(s: string)
    requires forall i :: 0 <= i < |s| ==> IsSlugChar(s[i]) || s[i] == '-'
    requires s != [] ==> IsSlugChar(s[0])
    requires NoDoubleHyphen(s)
    ensures DashRuns(s) == s
    decreases |s|
  {
    if s != [] {
      var run, d := TakeRun(s), DropRun(s);
      TakeDropRun(s);
      assert s[|run|..] == d;
      if d != [] {
        assert d[0] == '-';
        var u := d[1..];
        assert u == [] || IsSlugChar(u[0]) by {
          if u != [] {
            assert s[|run|] == '-' && s[|run| + 1] == u[0];
          }
        }
        SkipGapOfWordStart(u);
        assert SkipGap(d) == u;
        assert forall i :: 0 <= i < |u| ==> u[i] == s[|run| + 1 + i];
        WellFormedDashRuns(u);
        assert DashRuns(d) == "-" + u;
        assert d == "-" + u;
      }
      assert DashRuns(s) == run + DashRuns(d);
    }
  }

  /** The declared `slug` column: 1 to 100 characters from [a-z0-9-]. */
  predicate ValidSlugField(s: string)
  {
    0 < |s| <= SlugMaxLength && forall i :: 0 <= i < |s| ==> IsSlugChar(s[i]) || s[i] == '-'
  }

  lemma WordsOfTwo(a: string, b: string)
    requires a != [] && b != [] && AllSlugChars(a) && AllSlugChars(b)
    ensures Words(a + " " + b) == [a, b]
  {
    var g := " " + b;
    assert a + " " + b == a + g;
    WordsAfterWord(a, g);
    WordsAfterGap(' ', b);
    WordsAfterWord(b, []);
    assert b + [] == b;
  }

  /** A word followed by a gap or nothing is the first word. */
  lemma WordsAfterWord(w: string, rest: string)
    requires w != [] && AllSlugChars(w)
    requires rest == [] || !IsSlugChar(rest[0])
    ensures Words(w + rest) == [w] + Words(rest)
  {
    SkipGapOfWordStart(w + rest);
    TakeRunOfWord(w, rest);
  }

  /** One gap character before a word start adds no word. */
  lemma WordsAfterGap(c: char, rest: string)
    requires !IsSlugChar(c) && (rest == [] || IsSlugChar(rest[0]))
    ensures Words([c] + rest) == Words(rest)
  {
    assert ([c] + rest)[1..] == rest;
    SkipGapOfWordStart(rest);
  }

  lemma AcmeLower(name: string)
    requires name == "ACME Corporation"
    ensures Lower(name) == "acme" + " " + "corporation"
  {
    var x, y := "ACME", " Corporation";
    assert name == x + y;
    LowerAppend(x, y);
    LowerWordAcme(x);
    LowerWordCorporation(y);
  }

  lemma LowerWordAcme(x: string)
    requires x == "ACME"
    ensures Lower(x) == "acme"
  {
  }

  lemma LowerWordCorporation(y: string)
    requires y == " Corporation"
    ensures Lower(y) == " " + "corporation"
  {
  }

  /** The documented example. */
  lemma AcmeExample(name: string)
    requires name == "ACME Corporation"
    ensures GenerateSlugFromName(name) == "acme-corporation"
  {
    AcmeLower(name);
    TwoWordSlug(name, "acme", "corporation");
    AcmeJoined("acme", "corporation");
  }

  lemma AcmeJoined(a: string, b: string)
    requires a == "acme" && b == "corporation"
    ensures a + "-" + b == "acme-corporation"
  {
  }

  /** A name that lowers to two words around a space becomes the words joined by a hyphen. */
  lemma TwoWordSlug(name: string, a: string, b: string)
    requires a != [] && b != [] && AllSlugChars(a) && AllSlugChars(b)
    requires Lower(name) == a + " " + b
    ensures GenerateSlugFromName(name) == a + "-" + b
  {
    WordsOfTwo(a, b);
    SlugIsJoinedWords(name);
    assert JoinWords([a, b]) == a + "-" + b;
  }

  /** The generator does not guarantee a valid slug column: a name with no letter or digit gives
      the empty slug, and the slug is not cut to the column's length. */
  lemma GeneratedSlugNotAlwaysValid(name: string)
    ensures Words(Lower(name)) == [] ==> !ValidSlugField(GenerateSlugFromName(name))
    ensures |name| > SlugMaxLength && AllSlugChars(name) ==> !ValidSlugField(GenerateSlugFromName(name))
  {
    SlugWellFormed(name);
    if |name| > SlugMaxLength && AllSlugChars(name) {
      LowerOfSlugChars(name);
      SkipGapOfWordStart(name);
      TakeRunOfWord(name, []);
      assert name + [] == name;
      assert Words(name) == [name];
      SlugIsJoinedWords(name);
    }
  }
}
