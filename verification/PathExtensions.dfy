/** The extension of a file name in terms of its text (src/FilePath.cc). */
module PathExtensions {
  import opened FilePaths

  predicate Dotless(s: string) {
    '.' !in s
  }

  function Lower(s: string): string {
    if s == "" then "" else [ToLower(s[0])] + Lower(s[1..])
  }

  // The last two parts of a name are one extension.
  predicate Pair(x: string, y: string) {
    || (Lower(x) == "user" && Lower(y) == "js")
    || (Lower(y) in ["gz", "z", "bz2", "bz"] && 1 <= |x| <= 4)
  }

  lemma {:induction false} LowerFacts(s: string)
    ensures |Lower(s)| == |s| && forall k :: 0 <= k < |s| ==> Lower(s)[k] == ToLower(s[k])
    decreases |s|
  {
    if s != "" {
      LowerFacts(s[1..]);
    }
  }

  lemma LowerEquals(s: string, lower: string)
    ensures LowerCaseEquals(s, lower) <==> Lower(s) == lower
  {
    LowerFacts(s);
  }

  lemma LowerUserJs(x: string, y: string)
    requires Dotless(x) && Dotless(y)
    ensures Lower(x + "." + y) == "user.js" <==> Lower(x) == "user" && Lower(y) == "js"
  {
    var s := x + "." + y;
    LowerFacts(s);
    LowerFacts(x);
    LowerFacts(y);
    assert s[|x|] == '.' && ToLower('.') == '.';
    assert Lower(s)[|x|] == '.';
    assert forall k :: 0 <= k < |x| ==> s[k] == x[k];
    assert forall k :: 0 <= k < |y| ==> s[|x| + 1 + k] == y[k];
    if Lower(s) == "user.js" {
      DotOfUserJs(Lower(s), |x|);
      assert Lower(x) == Lower(s)[..4];
      assert Lower(y) == Lower(s)[5..];
    }
    if Lower(x) == "user" && Lower(y) == "js" {
      assert Lower(s) == Lower(x) + "." + Lower(y);
      assert "user" + "." + "js" == "user.js";
    }
  }

  lemma DotOfUserJs(s: string, k: nat)
    requires s == "user.js" && k < |s| && s[k] == '.'
    ensures k == 4
  {
    assert s[0] == 'u' && s[1] == 's' && s[2] == 'e' && s[3] == 'r' && s[5] == 'j' && s[6] == 's';
  }

  lemma LastDot(a: string, y: string)
    requires Dotless(y)
    ensures LastIndex(a + "." + y, '.') == |a|
  {
    hide LastIndex;
    NoDot(y);
    LastIndexConcat(a + ".", y, '.');
    LastIndexConcat(a, ".", '.');
    LastIndexUnique(".", '.', 0);
  }

  lemma NoDot(s: string)
    requires Dotless(s)
    ensures LastIndex(s, '.') == -1
  {
    hide LastIndex;
    LastIndexUnique(s, '.', -1);
  }

  // A name without a dot has no extension, and neither have "." and "..".
  lemma NoExtension(base: string)
    requires Dotless(base) || base == CURRENT || base == ".."
    ensures ExtensionPosition(base) == -1
  {
    hide LastIndex;
    if Dotless(base) {
      NoDot(base);
    }
  }

  // With one dot the extension starts there.
  lemma OneDot(stem: string, y: string)
    requires Dotless(stem) && Dotless(y) && stem + "." + y != CURRENT
    ensures ExtensionPosition(stem + "." + y) == |stem|
  {
    hide LastIndex, DoubleExtension;
    var s := stem + "." + y;
    LastDot(stem, y);
    assert s != ".." by {
      assert |s| == 2 ==> (stem != "" && s[0] == stem[0] != '.') || (y != "" && s[1] == y[0] != '.');
    }
    assert s[..|stem|] == stem;
    NoDot(stem);
  }

  // With more, it starts at the last dot but one exactly when the last two parts are a
  // pair, and else at the last.
  lemma TwoDots(stem: string, x: string, y: string)
    requires Dotless(x) && Dotless(y) && SEPARATOR !in stem + "." + x + "." + y
    requires stem + "." + x + "." + y != ".."
    ensures ExtensionPosition(stem + "." + x + "." + y) == if Pair(x, y) then |stem| else |stem| + 1 + |x|
  {
    hide LastIndex, DoubleExtension, Pair;
    var front := stem + "." + x;
    var s := front + "." + y;
    LastDot(front, y);
    LastDot(stem, x);
    assert s[..|front|] == front;
    assert SEPARATOR !in front by {
      assert forall k :: 0 <= k < |front| ==> front[k] == s[k];
    }
    NoSeparator(front);
    PairIsDouble(stem, x, y);
  }

  lemma NoSeparator(s: string)
    requires SEPARATOR !in s
    ensures LastIndex(s, SEPARATOR) == -1
  {
    hide LastIndex;
    LastIndexUnique(s, SEPARATOR, -1);
  }

  lemma PairIsDouble(stem: string, x: string, y: string)
    requires Dotless(x) && Dotless(y)
    ensures DoubleExtension(stem + "." + x + "." + y, |stem|, |stem| + 1 + |x|) <==> Pair(x, y)
  {
    hide LowerCaseEquals, Lower;
    var s := stem + "." + x + "." + y;
    assert s[|stem| + 1..] == x + "." + y;
    assert s[|stem| + 1 + |x| + 1..] == y;
    LowerEquals(x + "." + y, "user.js");
    LowerUserJs(x, y);
    forall suffix ensures LowerCaseEquals(y, suffix) <==> Lower(y) == suffix {
      LowerEquals(y, suffix);
    }
  }

  // The extension of a path whose base name has at least two dots.
  lemma ExtensionText(p: string, stem: string, x: string, y: string)
    requires Basename(p) == stem + "." + x + "." + y && Dotless(x) && Dotless(y)
    requires Name(Basename(p)) && Basename(p) != ".."
    ensures Extension(p) == if Pair(x, y) then "." + x + "." + y else "." + y
  {
    hide Basename, ExtensionPosition, Pair;
    TwoDots(stem, x, y);
    var base := stem + "." + x + "." + y;
    assert base[|stem|..] == "." + x + "." + y;
    assert base[|stem| + 1 + |x|..] == "." + y;
  }

  lemma ExtensionExamples()
    ensures Pair("tar", "gz") && Pair("tar", "Z") && Pair("User", "js") && !Pair("tarball", "gz") && !Pair("b", "c")
  {
    LowerFacts("gz");
    LowerFacts("Z");
    LowerFacts("c");
    LowerFacts("js");
    LowerFacts("User");
    LowerFacts("tarball");
    assert Lower("gz") == "gz" && Lower("Z") == "z" && Lower("c") == "c" && Lower("js") == "js" && Lower("User") == "user";
    assert |"user"| == 4 && |Lower("tarball")| == 7;
    assert |Lower("b")| == 1 by { LowerFacts("b"); }
  }
}
