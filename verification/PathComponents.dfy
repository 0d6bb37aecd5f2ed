/** The components of a path, and its directory and base name, in terms of its text: one
    pass over the characters that cuts at separators (src/FilePath.cc). */
module PathComponents {
  import opened FilePaths

  // ---------- One pass over the path ----------

  // The maximal runs of characters other than separators, in order; cur is the run so far.
  function Scan(p: string, cur: string): seq<string> {
    var run := if cur == "" then [] else [cur];
    if p == "" then run
    else if p[0] == SEPARATOR then run + Scan(p[1..], "")
    else Scan(p[1..], cur + [p[0]])
  }

  // How many separators the path starts with.
  function Leading(p: string): (n: nat)
    ensures n <= |p|
  {
    if p == "" || p[0] != SEPARATOR then 0 else 1 + Leading(p[1..])
  }

  // An absolute path has a root: "//" for two separators, or for three before a name, and
  // "/" otherwise.
  function RootOf(p: string): seq<string> {
    var n := Leading(p);
    if n == 0 then [] else if n == 2 || (n == 3 && n < |p|) then ["//"] else ["/"]
  }

  // A relative path loses a "." at its start when more follows, or when it is all there is.
  function NamesOf(p: string): seq<string> {
    var runs := Scan(p, "");
    if Leading(p) == 0 && runs != [] && runs[0] == CURRENT && (|runs| > 1 || p == CURRENT) then runs[1..] else runs
  }

  lemma {:induction false} ScanTrailing(q: string, cur: string)
    ensures Scan(q + [SEPARATOR], cur) == Scan(q, cur)
    decreases |q|
  {
    var r := q + [SEPARATOR];
    if q == "" {
      assert r[1..] == "";
      assert Scan("", "") == [];
    } else {
      assert r[0] == q[0] && r[1..] == q[1..] + [SEPARATOR];
      ScanTrailing(q[1..], if q[0] == SEPARATOR then "" else cur + [q[0]]);
    }
  }

  // Separators at the end make no run.
  lemma {:induction false} ScanSeparators(q: string, t: string)
    requires AllSeparators(t)
    ensures Scan(q + t, "") == Scan(q, "")
    decreases |t|
  {
    hide Scan;
    if t == "" {
      assert q + t == q;
    } else {
      var front := t[..|t| - 1];
      assert q + t == (q + front) + [SEPARATOR];
      ScanTrailing(q + front, "");
      ScanSeparators(q, front);
    }
  }

  lemma {:induction false} ScanPlain(name: string, cur: string)
    requires SEPARATOR !in name && cur + name != ""
    ensures Scan(name, cur) == [cur + name]
    decreases |name|
  {
    if name == "" {
      assert cur + name == cur;
    } else {
      assert name[0] != SEPARATOR;
      assert cur + name == (cur + [name[0]]) + name[1..];
      ScanPlain(name[1..], cur + [name[0]]);
    }
  }

  lemma {:induction false} ScanLast(q: string, name: string, cur: string)
    requires Name(name)
    ensures Scan(q + [SEPARATOR] + name, cur) == Scan(q, cur) + [name]
    decreases |q|
  {
    var r := q + [SEPARATOR] + name;
    if q == "" {
      assert r[0] == SEPARATOR && r[1..] == name;
      ScanPlain(name, "");
      assert "" + name == name;
    } else {
      assert r[0] == q[0] && r[1..] == q[1..] + [SEPARATOR] + name;
      var next := if q[0] == SEPARATOR then "" else cur + [q[0]];
      ScanLast(q[1..], name, next);
    }
  }

  // A name after a separator, or at the start, is the last run.
  lemma ScanName(lead: string, name: string)
    requires Name(name) && (lead == "" || lead[|lead| - 1] == SEPARATOR)
    ensures Scan(lead + name, "") == Scan(lead, "") + [name]
  {
    hide Scan;
    if lead == "" {
      ScanPlain(name, "");
      assert lead + name == name && "" + name == name;
      ScanNone();
    } else {
      var q := lead[..|lead| - 1];
      assert lead == q + [SEPARATOR];
      ScanLast(q, name, "");
      ScanTrailing(q, "");
    }
  }

  lemma ScanNone()
    ensures Scan("", "") == []
  {
  }

  lemma {:induction false} LeadingAll(p: string)
    ensures Leading(p) == |p| <==> AllSeparators(p)
    decreases |p|
  {
    if p != "" {
      LeadingAll(p[1..]);
      assert AllSeparators(p) <==> p[0] == SEPARATOR && AllSeparators(p[1..]) by {
        assert forall k :: 0 <= k < |p| - 1 ==> p[1..][k] == p[k + 1];
        assert forall k :: 1 <= k < |p| ==> p[k] == p[1..][k - 1];
      }
    }
  }

  lemma {:induction false} LeadingOfFront(a: string, b: string)
    requires Leading(a) < |a| || b == "" || b[0] != SEPARATOR
    ensures Leading(a + b) == Leading(a)
    decreases |a|
  {
    if a == "" {
      assert a + b == b;
    } else if a[0] == SEPARATOR {
      assert (a + b)[1..] == a[1..] + b;
      LeadingOfFront(a[1..], b);
    }
  }

  // ---------- The parts of a path ----------

  // A path that is not all separators is its directories, a name, and separators.
  lemma Parts(p: string) returns (lead: string, name: string, t: string)
    requires !AllSeparators(p)
    ensures p == lead + name + t && Name(name) && AllSeparators(t)
    ensures lead == "" || lead[|lead| - 1] == SEPARATOR
    ensures Strip(p) == lead + name && LastIndex(lead + name, SEPARATOR) == |lead| - 1
    ensures Basename(p) == name
  {
    hide Strip, LastIndex, AllSeparators, Stripped, Basename, Name;
    var s := Strip(p);
    StripFacts(p);
    t := p[|s|..];
    assert p == s + t;
    SeparatorsJoin(s, t);
    EndsInCharacter(s);
    lead, name := AfterLast(s);
    BasenameText(p, lead, name);
  }

  lemma AfterLast(s: string) returns (lead: string, name: string)
    requires s != "" && s[|s| - 1] != SEPARATOR
    ensures s == lead + name && Name(name) && (lead == "" || lead[|lead| - 1] == SEPARATOR)
    ensures LastIndex(s, SEPARATOR) == |lead| - 1
  {
    hide LastIndex;
    var last := LastIndex(s, SEPARATOR);
    lead, name := s[..last + 1], s[last + 1..];
    assert forall k :: 0 <= k < |name| ==> name[k] == s[last + 1 + k];
  }

  lemma BasenameText(p: string, lead: string, name: string)
    requires Strip(p) == lead + name && name != "" && LastIndex(lead + name, SEPARATOR) == |lead| - 1
    ensures Basename(p) == name
  {
    hide Strip, LastIndex;
    assert (lead + name)[|lead|..] == name;
    assert lead == "" ==> lead + name == name;
  }

  lemma SeparatorsJoin(a: string, b: string)
    ensures AllSeparators(a + b) <==> AllSeparators(a) && AllSeparators(b)
  {
    var s := a + b;
    assert forall k :: 0 <= k < |a| ==> s[k] == a[k];
    assert forall k :: 0 <= k < |b| ==> s[|a| + k] == b[k];
  }

  lemma EndsInCharacter(s: string)
    requires Stripped(s) && !AllSeparators(s)
    ensures s != "" && s[|s| - 1] != SEPARATOR
  {
  }

  lemma {:induction false} TrimmedSeparators(p: string)
    requires AllSeparators(p) && p != ""
    ensures Trimmed(p) == "/"
    decreases |p|
  {
    if |p| == 1 {
      assert p == "/";
    } else {
      TrimmedSeparators(p[..|p| - 1]);
    }
  }

  // The directory of a path, from the text in front of its base name.
  lemma DirnameText(p: string, lead: string, name: string, t: string)
    requires p == lead + name + t && Name(name) && AllSeparators(t)
    requires lead == "" || lead[|lead| - 1] == SEPARATOR
    requires Strip(p) == lead + name && LastIndex(lead + name, SEPARATOR) == |lead| - 1
    ensures Dirname(p) ==
      if lead == "" then CURRENT
      else if AllSeparators(lead) then if |lead| == 2 || |lead| == 3 then "//" else "/"
      else Strip(lead)
  {
    hide LastIndex, Trimmed;
    var s, n := lead + name, |lead|;
    if lead == "" {
      StripFixes("");
    } else if AllSeparators(lead) {
      RootText(lead, name);
    } else {
      assert s[..n - 1] == lead[..n - 1];
      DirectoryText(lead);
      if n == 2 {
        assert lead[0] != SEPARATOR;
        assert s[0] == lead[0];
      }
    }
  }

  lemma RootText(lead: string, name: string)
    requires lead != "" && AllSeparators(lead)
    ensures Strip(Kept(lead + name, |lead| - 1)) == if |lead| == 2 || |lead| == 3 then "//" else "/"
  {
    hide Trimmed;
    var s, n := lead + name, |lead|;
    assert forall k :: 0 <= k < n ==> s[k] == SEPARATOR;
    if n == 1 {
      assert s[..1] == "/";
      StripFixes("/");
    } else if n <= 3 {
      assert s[..2] == "//";
    } else {
      assert AllSeparators(s[..n - 1]);
      TrimmedSeparators(s[..n - 1]);
    }
  }

  lemma DirectoryText(lead: string)
    requires lead != "" && lead[|lead| - 1] == SEPARATOR && !AllSeparators(lead)
    ensures |lead| > 1 && Strip(lead[..|lead| - 1]) == Strip(lead) && Strip(lead) != ""
  {
    var front := lead[..|lead| - 1];
    assert lead == front + [SEPARATOR];
    SeparatorsJoin(front, [SEPARATOR]);
    StripFacts(lead);
  }

  // What lies between the directory and the base name is separators only.
  lemma BetweenIsSeparators(p: string)
    requires !AllSeparators(p) && Dirname(p) != CURRENT
    ensures var d, base := Dirname(p), Basename(p);
      && d <= p && |d| + |base| <= |Strip(p)|
      && AllSeparators(Strip(p)[|d|..|Strip(p)| - |base|]) && Strip(p)[|Strip(p)| - |base|..] == base
  {
    hide Strip, LastIndex, Dirname, Basename, Trimmed;
    var lead, name, t := Parts(p);
    DirnameText(p, lead, name, t);
    StripFacts(p);
    var d := Dirname(p);
    assert (lead + name)[|lead|..] == name;
    if AllSeparators(lead) {
      assert forall k :: 0 <= k < |d| ==> d[k] == lead[k];
      assert (lead + name)[|d|..|lead|] == lead[|d|..];
    } else {
      StripFacts(lead);
      assert (lead + name)[|d|..|lead|] == lead[|d|..];
    }
  }

  // What append writes: the stripped path, one separator unless the path is a root or
  // there is nothing in front, and the name.
  lemma AppendText(p: string, component: string)
    requires Name(UpToNul(component))
    ensures var c, s := UpToNul(component), Strip(p);
      Append(p, component) ==
        if p == "" || p == CURRENT then c else if s == "/" || s == "//" then s + c else s + "/" + c
  {
    hide Trimmed, UpToNul;
    StripFacts(p);
  }

  // ---------- Components ----------

  lemma ScanOfParts(lead: string, name: string, t: string)
    requires Name(name) && AllSeparators(t) && (lead == "" || lead[|lead| - 1] == SEPARATOR)
    ensures Scan(lead + name + t, "") == Scan(lead, "") + [name]
  {
    hide Scan;
    ScanSeparators(lead + name, t);
    ScanName(lead, name);
  }

  lemma ScanOfSeparators(p: string)
    requires AllSeparators(p)
    ensures Scan(p, "") == []
  {
    hide Scan;
    ScanSeparators("", p);
    assert "" + p == p;
    ScanNone();
  }

  lemma ScanFindsSome(p: string)
    requires !AllSeparators(p)
    ensures Scan(p, "") != []
  {
    hide Scan, Strip, Basename, LastIndex, AllSeparators;
    var lead, name, t := Parts(p);
    ScanOfParts(lead, name, t);
  }

  // A stripped relative path with one run is that run.
  lemma SingleRun(d: string)
    requires Strip(d) == d && !AllSeparators(d) && Leading(d) == 0 && |Scan(d, "")| == 1
    ensures Scan(d, "") == [d]
  {
    hide Scan, Strip, Basename, LastIndex, AllSeparators, Name;
    var lead, name, t := Parts(d);
    ScanOfParts(lead, name, t);
    if !AllSeparators(lead) {
      ScanFindsSome(lead);
    }
    assert d == lead + name;
    LeadIsNone(lead, name);
    assert lead + name == name;
  }

  lemma LeadIsNone(lead: string, name: string)
    requires AllSeparators(lead) && Leading(lead + name) == 0
    ensures lead == ""
  {
  }

  lemma RootOnly(p: string)
    requires AllSeparators(p) && p != ""
    ensures Walk(p) == RootOf(p) && NamesOf(p) == []
  {
    hide Scan, Walk, Strip, Trimmed, LastIndex, Dirname, Basename;
    ScanOfSeparators(p);
    LeadingAll(p);
    WalkOfRoot("/");
    WalkOfRoot("//");
    if |p| == 1 {
      assert p == "/";
    } else if |p| == 2 {
      assert p == "//";
    } else {
      StripOfSeparators(p);
      StrippedTwin(p);
      DirnameFixes(p);
      RootFacts();
      WalkOn(p);
    }
  }

  lemma StripOfSeparators(p: string)
    requires AllSeparators(p) && |p| > 2
    ensures Strip(p) == "/"
  {
    TrimmedSeparators(p);
  }

  lemma WalkOfRoot(p: string)
    requires p == "/" || p == "//"
    ensures Walk(p) == [p]
  {
    hide Dirname, Trimmed, LastIndex, Strip;
    DirnameFixes(p);
    StripFixes(p);
    LastIndexUnique(p, SEPARATOR, |p| - 1);
  }

  lemma CurrentSplits()
    ensures Walk(CURRENT) == [] && RootOf(CURRENT) == [] && NamesOf(CURRENT) == [] && Scan(CURRENT, "") == [CURRENT]
  {
    hide Walk, Scan;
    CurrentIsBare();
    ScanPlain(CURRENT, "");
    assert "" + CURRENT == CURRENT;
  }

  // Going up to the directory takes the last name away and keeps the root.
  lemma UpOne(p: string, lead: string, name: string, t: string, d: string)
    requires p == lead + name + t && Name(name) && AllSeparators(t) && p != CURRENT
    requires lead == "" || lead[|lead| - 1] == SEPARATOR
    requires d == if lead == "" then CURRENT
      else if AllSeparators(lead) then if |lead| == 2 || |lead| == 3 then "//" else "/"
      else Strip(lead)
    ensures RootOf(p) == RootOf(d) && NamesOf(p) == NamesOf(d) + [name]
  {
    hide Scan, Strip, RootOf, NamesOf;
    if lead == "" {
      UpToCurrent(p, name, t);
    } else if AllSeparators(lead) {
      UpToRoot(p, lead, name, t, d);
    } else {
      UpToDirectory(p, lead, name, t);
    }
  }

  lemma UpToCurrent(p: string, name: string, t: string)
    requires p == "" + name + t && Name(name) && AllSeparators(t) && p != CURRENT
    ensures RootOf(p) == RootOf(CURRENT) && NamesOf(p) == NamesOf(CURRENT) + [name]
  {
    hide Scan, AllSeparators;
    CurrentSplits();
    ScanOfParts("", name, t);
    ScanNone();
    assert p[0] == name[0] != SEPARATOR;
  }

  lemma UpToRoot(p: string, lead: string, name: string, t: string, d: string)
    requires p == lead + name + t && Name(name) && AllSeparators(t) && AllSeparators(lead) && lead != ""
    requires d == if |lead| == 2 || |lead| == 3 then "//" else "/"
    ensures RootOf(p) == RootOf(d) && NamesOf(p) == NamesOf(d) + [name]
  {
    hide Scan;
    ScanOfParts(lead, name, t);
    ScanOfSeparators(lead);
    ScanOfSeparators(d);
    LeadingAll(lead);
    LeadingAll(d);
    assert p == lead + (name + t) && (name + t)[0] == name[0];
    LeadingOfFront(lead, name + t);
  }

  lemma UpToDirectory(p: string, lead: string, name: string, t: string)
    requires p == lead + name + t && Name(name) && AllSeparators(t)
    requires lead != "" && lead[|lead| - 1] == SEPARATOR && !AllSeparators(lead)
    ensures RootOf(p) == RootOf(Strip(lead)) && NamesOf(p) == NamesOf(Strip(lead)) + [name]
  {
    hide Scan, Strip, AllSeparators;
    var d := Strip(lead);
    StripFacts(lead);
    StripIdempotent(lead);
    var rest := lead[|d|..];
    assert lead == d + rest && p == lead + (name + t);
    SeparatorsJoin(d, rest);
    LeadingAll(d);
    LeadingAll(lead);
    LeadingOfFront(d, rest);
    LeadingOfFront(lead, name + t);
    ScanOfParts(lead, name, t);
    ScanSeparators(d, rest);
    ScanFindsSome(d);
    if Leading(d) == 0 && |Scan(d, "")| == 1 {
      SingleRun(d);
    }
  }

  lemma {:induction false} WalkIsRuns(p: string)
    requires p != ""
    ensures Walk(p) == RootOf(p) + NamesOf(p)
    decreases Size(p)
  {
    hide Scan, Walk, Strip, Dirname, Basename, LastIndex, AllSeparators, Name, RootOf, NamesOf;
    if AllSeparators(p) {
      RootOnly(p);
    } else if p == CURRENT {
      CurrentSplits();
    } else {
      var lead, name, t := Parts(p);
      DirnameText(p, lead, name, t);
      var d := Dirname(p);
      NotARoot(p);
      DirnameFixes(p);
      DirnameShrinks(p);
      DirnameFacts(p);
      NameIsNotSeparators(name);
      WalkOn(p);
      WalkIsRuns(d);
      UpOne(p, lead, name, t, d);
    }
  }

  lemma NotARoot(p: string)
    requires !AllSeparators(p)
    ensures p != "/" && p != "//"
  {
  }

  lemma NameIsNotSeparators(name: string)
    requires Name(name)
    ensures !AllSeparators(name)
  {
    assert name[0] in name;
  }

  // The components of any path are its root, if it is absolute, and then its maximal runs
  // of characters other than separators, in order.
  lemma ComponentsAreRuns(p: string)
    ensures Components(p) == if p == "" then [] else RootOf(p) + NamesOf(p)
  {
    hide Walk, RootOf, NamesOf;
    if p != "" {
      WalkIsRuns(p);
    }
  }
}
