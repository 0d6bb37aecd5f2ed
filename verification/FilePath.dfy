/** Path algebra of FilePath (src/FilePath.cc) on platforms without drive letters. */
module FilePaths {

  const SEPARATOR := '/'
  const TERMINATOR: char := 0 as char
  const CURRENT := "."

  // ---------- Searching ----------

  // rfind and find_last_of: the last position of c, or -1.
  function LastIndex(s: string, c: char): (i: int)
    ensures -1 <= i < |s|
    ensures i >= 0 ==> s[i] == c
    ensures forall k :: i < k < |s| ==> s[k] != c
  {
    if s == "" then -1
    else if s[|s| - 1] == c then |s| - 1
    else LastIndex(s[..|s| - 1], c)
  }

  function UpToNul(s: string): (r: string)
    ensures r <= s && TERMINATOR !in r
    ensures r == s || s[|r|] == TERMINATOR
  {
    if s == "" || s[0] == TERMINATOR then "" else [s[0]] + UpToNul(s[1..])
  }

  lemma LastIndexUnique(s: string, c: char, i: int)
    requires -1 <= i < |s|
    requires i >= 0 ==> s[i] == c
    requires forall k :: i < k < |s| ==> s[k] != c
    ensures LastIndex(s, c) == i
  {
  }

  lemma LastIndexConcat(a: string, b: string, c: char)
    ensures LastIndex(a + b, c) == if LastIndex(b, c) >= 0 then |a| + LastIndex(b, c) else LastIndex(a, c)
  {
    var i := if LastIndex(b, c) >= 0 then |a| + LastIndex(b, c) else LastIndex(a, c);
    forall k | i < k < |a + b| ensures (a + b)[k] != c {
      assert (a + b)[k] == if k < |a| then a[k] else b[k - |a|];
    }
    LastIndexUnique(a + b, c, i);
  }

  predicate AllSeparators(s: string) {
    forall k :: 0 <= k < |s| ==> s[k] == SEPARATOR
  }

  predicate Name(s: string) {
    s != "" && SEPARATOR !in s
  }

  // ---------- Trailing separators ----------

  function Trimmed(p: string): string {
    if |p| > 1 && p[|p| - 1] == SEPARATOR then Trimmed(p[..|p| - 1]) else p
  }

  // Trailing separators go, but a lone root stays and so does an exact "//".
  function Strip(p: string): string {
    if p == "//" then p else Trimmed(p)
  }

  predicate Stripped(s: string) {
    s == "" || s == "/" || s == "//" || s[|s| - 1] != SEPARATOR
  }

  lemma {:induction false} TrimmedFacts(p: string)
    ensures Trimmed(p) <= p
    ensures AllSeparators(p[|Trimmed(p)|..])
    ensures Trimmed(p) == "" ==> p == ""
    ensures Trimmed(p) == "" || Trimmed(p) == "/" || Trimmed(p)[|Trimmed(p)| - 1] != SEPARATOR
  {
    if |p| > 1 && p[|p| - 1] == SEPARATOR {
      var q := p[..|p| - 1];
      TrimmedFacts(q);
      assert p[|Trimmed(q)|..] == q[|Trimmed(q)|..] + [SEPARATOR];
    }
  }

  lemma StripFacts(p: string)
    ensures Strip(p) <= p && AllSeparators(p[|Strip(p)|..])
    ensures Strip(p) == "" <==> p == ""
    ensures Stripped(Strip(p))
  {
    TrimmedFacts(p);
  }

  // Strip changes nothing exactly on the four shapes it can return.
  lemma StripFixes(p: string)
    ensures Strip(p) == p <==> Stripped(p)
  {
    StripFacts(p);
  }

  lemma StripIdempotent(p: string)
    ensures Strip(Strip(p)) == Strip(p)
  {
    StripFacts(p);
    StripFixes(Strip(p));
  }

  method StripTrailingSeparators(path: string) returns (r: string)
    ensures r == Strip(path)
  {
    r := path;
    var pos, lastStripped := |path|, -1;
    while pos > 1 && r[pos - 1] == SEPARATOR
      invariant 0 <= pos <= |r| <= |path| && r <= path
      invariant lastStripped == (if pos == |path| then -1 else if r == "//" == path then -1 else pos + 1)
      invariant path == "//" ==> r == path
      invariant if pos == |r| then Trimmed(r) == Trimmed(path) else pos == 1 && r == "//" == path
    {
      if pos != 2 || lastStripped == 3 || r[0] != SEPARATOR {
        r := r[..pos - 1];
        lastStripped := pos;
      }
      pos := pos - 1;
    }
  }

  // ---------- dirname, basename ----------

  // The part of a stripped path that dirname keeps, given its last separator.
  function Kept(s: string, last: int): string
    requires -1 <= last < |s|
  {
    if last < 0 then ""
    else if last == 0 then s[..1]
    else if last == 1 && s[0] == SEPARATOR then s[..2]
    else s[..last]
  }

  function Dirname(p: string): string {
    var s := Strip(p);
    var d := Strip(Kept(s, LastIndex(s, SEPARATOR)));
    if d == "" then CURRENT else d
  }

  function Basename(p: string): string {
    var s := Strip(p);
    var last := LastIndex(s, SEPARATOR);
    if 0 <= last < |s| - 1 then s[last + 1..] else s
  }

  lemma DirnameFacts(p: string)
    ensures Dirname(p) == CURRENT || Dirname(p) <= p
    ensures Stripped(Dirname(p)) && Dirname(p) != ""
  {
    hide Strip, Stripped, LastIndex;
    var s := Strip(p);
    var t := Kept(s, LastIndex(s, SEPARATOR));
    StripFacts(p);
    StripFacts(t);
    assert t <= s;
    CurrentIsStripped();
  }

  lemma CurrentIsStripped()
    ensures Stripped(CURRENT)
  {
  }

  // The loop of get_components: dirname reaches a fixed point because it yields "." or a
  // proper prefix, though not always a shorter string.
  function Size(p: string): nat {
    if p == CURRENT then 0 else 1 + |p|
  }

  lemma DirnameShrinks(p: string)
    requires Dirname(p) != p
    ensures Size(Dirname(p)) < Size(p)
  {
    hide Dirname;
    DirnameFacts(p);
  }

  // The paths that dirname leaves alone.
  lemma DirnameFixes(p: string)
    ensures Dirname(p) == p <==> p == CURRENT || p == "/" || p == "//"
  {
    hide LastIndex, Trimmed;
    DirnameFacts(p);
    StripFixes(p);
    if Stripped(p) && p != "" {
      var last := LastIndex(p, SEPARATOR);
      StripFacts(Kept(p, last));
      StripFixes(Kept(p, last));
      if p == "/" || p == "//" {
        LastIndexUnique(p, SEPARATOR, |p| - 1);
      }
    }
  }

  // ---------- append ----------

  function Append(p: string, component: string): string {
    var c := UpToNul(component);
    if p == CURRENT && c != "" then c
    else
      var s := Strip(p);
      if c != "" && s != "" && s[|s| - 1] != SEPARATOR then s + [SEPARATOR] + c else s + c
  }

  // What append puts before a component.
  function Lead(p: string): string {
    var s := Strip(p);
    if p == CURRENT then "" else if s != "" && s[|s| - 1] != SEPARATOR then s + [SEPARATOR] else s
  }

  lemma LeadFacts(p: string)
    ensures Lead(p) == "" <==> p == "" || p == CURRENT
    ensures Lead(p) == "" || Lead(p)[|Lead(p)| - 1] == SEPARATOR
    ensures Lead(p) != "" ==> Strip(Kept(Lead(p), |Lead(p)| - 1)) == Strip(p)
  {
    hide Trimmed;
    var s, lead := Strip(p), Lead(p);
    StripFacts(p);
    StripIdempotent(p);
    if lead != "" {
      assert lead == s ==> s == "/" || s == "//";
      assert Kept(lead, |lead| - 1) == s;
    }
  }

  // Cutting at a separator does not look past it.
  lemma KeptPrefix(pre: string, c: string)
    requires pre != ""
    ensures Kept(pre + c, |pre| - 1) == Kept(pre, |pre| - 1)
  {
  }

  lemma EndsInName(pre: string, c: string)
    requires Name(c) && (pre == "" || pre[|pre| - 1] == SEPARATOR)
    ensures LastIndex(pre + c, SEPARATOR) == |pre| - 1
    ensures Strip(pre + c) == pre + c
  {
    hide Strip;
    LastIndexUnique(c, SEPARATOR, -1);
    LastIndexConcat(pre, c, SEPARATOR);
    assert (pre + c)[|pre + c| - 1] == c[|c| - 1];
    StripFixes(pre + c);
  }

  // basename undoes append, and dirname does exactly when the path is not empty.
  lemma AppendSplits(p: string, component: string)
    requires Name(UpToNul(component))
    ensures Basename(Append(p, component)) == UpToNul(component)
    ensures Dirname(Append(p, component)) == if p == "" then CURRENT else Strip(p)
    ensures Strip(Append(p, component)) == Append(p, component)
  {
    hide Trimmed, LastIndex, UpToNul;
    var c, pre := UpToNul(component), Lead(p);
    assert Append(p, component) == pre + c;
    LeadFacts(p);
    EndsInName(pre, c);
    StripFacts(p);
    if pre != "" {
      KeptPrefix(pre, c);
    } else {
      StripFacts("");
      StripFixes(p);
    }
  }

  // ---------- Components ----------

  // The components down to a path, root first.
  function Walk(p: string): seq<string>
    decreases Size(p)
  {
    var d, base := Dirname(p), Basename(p);
    if d == p then
      if base != "" && base != CURRENT then [base] else []
    else
      DirnameShrinks(p);
      if AllSeparators(base) then Walk(d) else Walk(d) + [base]
  }

  function Components(p: string): seq<string> {
    if p == "" then [] else Walk(p)
  }

  function Reversed(s: seq<string>): seq<string> {
    if s == [] then [] else Reversed(s[1..]) + [s[0]]
  }

  lemma {:induction false} ReversedSnoc(s: seq<string>, x: string)
    ensures Reversed(s + [x]) == [x] + Reversed(s)
  {
    if s != [] {
      ReversedSnoc(s[1..], x);
      assert (s + [x])[1..] == s[1..] + [x];
    }
  }

  method AreAllSeparators(s: string) returns (all: bool)
    ensures all == AllSeparators(s)
  {
    for i := 0 to |s|
      invariant AllSeparators(s[..i])
    {
      if s[i] != SEPARATOR {
        return false;
      }
    }
    return true;
  }

  method GetComponents(p: string) returns (components: seq<string>)
    ensures components == Components(p)
  {
    hide Dirname, Basename, AllSeparators;
    if p == "" {
      return [];
    }
    var found, current := [], p;
    while current != Dirname(current)
      invariant Walk(p) == Walk(current) + Reversed(found)
      decreases Size(current)
    {
      var base := Basename(current);
      var all := AreAllSeparators(base);
      if !all {
        ReversedSnoc(found, base);
        found := found + [base];
      }
      DirnameShrinks(current);
      current := Dirname(current);
    }
    var base := Basename(current);
    if base != "" && base != CURRENT {
      ReversedSnoc(found, base);
      found := found + [base];
    }
    components := Reverse(found);
  }

  method Reverse(s: seq<string>) returns (r: seq<string>)
    ensures r == Reversed(s)
  {
    r := [];
    for i := 0 to |s|
      invariant r == Reversed(s[..i])
    {
      ReversedSnoc(s[..i], s[i]);
      assert s[..i + 1] == s[..i] + [s[i]];
      r := [s[i]] + r;
    }
    assert s[..|s|] == s;
  }

  lemma StrippedTwin(p: string)
    ensures Dirname(Strip(p)) == Dirname(p) && Basename(Strip(p)) == Basename(p)
  {
    hide Strip, LastIndex, Kept;
    StripIdempotent(p);
  }

  // Only "//" itself is stripped to "//".
  lemma DoubleRoot(p: string)
    requires Strip(p) == "//"
    ensures p == "//"
  {
    hide Trimmed, AllSeparators;
    TrimmedFacts(p);
  }

  lemma RootFacts()
    ensures Dirname("/") == "/" && Basename("/") == "/" && AllSeparators("/")
  {
    hide Dirname;
    DirnameFixes("/");
    StripFixes("/");
    LastIndexUnique("/", SEPARATOR, 0);
  }

  // Below a fixed point of dirname a walk goes on to the directory.
  lemma WalkOn(p: string)
    requires Dirname(p) != p
    ensures Walk(p) == if AllSeparators(Basename(p)) then Walk(Dirname(p)) else Walk(Dirname(p)) + [Basename(p)]
  {
    hide Dirname, Basename, AllSeparators;
    DirnameShrinks(p);
  }

  // A path walks like its stripped form, unless stripping turns it into ".".
  lemma ComponentsOfStripped(p: string)
    ensures Components(Strip(p)) == Components(p) <==> (Strip(p) == CURRENT ==> p == CURRENT)
  {
    hide Strip, Stripped, Dirname, Basename, AllSeparators, Walk;
    if Strip(p) != p {
      StripFacts(p);
      WalkOfUnstripped(p);
    }
  }

  lemma WalkOfUnstripped(p: string)
    requires Strip(p) != p
    ensures Walk(Strip(p)) == Walk(p) <==> Strip(p) != CURRENT
  {
    hide Strip, Stripped, Dirname, Basename, AllSeparators, Walk;
    var s := Strip(p);
    RootsAreStripped();
    StrippedTwin(p);
    if s == "//" {
      DoubleRoot(p);
    }
    DirnameFixes(p);
    DirnameFixes(s);
    WalkOn(p);
    if s == CURRENT {
      CurrentIsBare();
      CurrentIsName();
    } else if s == "/" {
      RootFacts();
    } else {
      WalkOn(s);
    }
  }

  lemma RootsAreStripped()
    ensures Strip(CURRENT) == CURRENT && Strip("/") == "/" && Strip("//") == "//"
  {
    hide Strip;
    StripFixes(CURRENT);
    StripFixes("/");
    StripFixes("//");
  }

  lemma CurrentIsName()
    ensures !AllSeparators(CURRENT)
  {
    assert CURRENT[0] != SEPARATOR;
  }

  // ---------- Names appended one by one ----------

  // Components of the result are those of the path and then the name, except that "."
  // appended to "" or "." leaves no component at all.
  lemma AppendComponents(p: string, component: string)
    requires Name(UpToNul(component))
    ensures Components(Append(p, component)) == Components(Strip(p)) + [UpToNul(component)] <==>
      !((p == "" || p == CURRENT) && UpToNul(component) == CURRENT)
  {
    hide Trimmed, LastIndex, Strip, Dirname, Basename, UpToNul;
    var q, c := Append(p, component), UpToNul(component);
    AppendSplits(p, component);
    StripFacts(p);
    StripFixes(p);
    DirnameFixes(q);
    DirnameFixes(CURRENT);
    CurrentIsBare();
    assert c[0] != SEPARATOR;
    assert !AllSeparators(c);
  }

  lemma CurrentIsBare()
    ensures Basename(CURRENT) == CURRENT && Strip(CURRENT) == CURRENT && Strip("") == ""
    ensures Components(CURRENT) == [] && Components("") == []
  {
    StripFixes(CURRENT);
    StripFixes("");
    DirnameFixes(CURRENT);
  }

  function AppendAll(p: string, names: seq<string>): string {
    if names == [] then p else Append(AppendAll(p, names[..|names| - 1]), names[|names| - 1])
  }

  predicate AllNames(names: seq<string>) {
    forall i :: 0 <= i < |names| ==> Name(names[i]) && TERMINATOR !in names[i]
  }

  lemma {:induction false} AppendAllBeyond(p: string, names: seq<string>)
    requires p != "" && p != CURRENT && AllNames(names)
    ensures Components(Strip(AppendAll(p, names))) == Components(Strip(p)) + names
    ensures AppendAll(p, names) != "" && AppendAll(p, names) != CURRENT
  {
    hide Components, Strip, Append, Name;
    if names != [] {
      var n := |names| - 1;
      AppendAllBeyond(p, names[..n]);
      AppendOne(AppendAll(p, names[..n]), names[n]);
      assert names == names[..n] + [names[n]];
    }
  }

  lemma AppendOne(p: string, name: string)
    requires p != "" && p != CURRENT && Name(name) && TERMINATOR !in name
    ensures Components(Strip(Append(p, name))) == Components(Strip(p)) + [name]
    ensures |Append(p, name)| > 1
  {
    hide Components, Strip, Append, Name, UpToNul;
    NoNul(name);
    NameIsNotEmpty(name);
    AppendComponents(p, name);
    AppendSplits(p, name);
    AppendGrows(p, name);
  }

  lemma {:induction false} AppendAllFirst(p: string, names: seq<string>)
    requires names != []
    ensures AppendAll(p, names) == AppendAll(Append(p, names[0]), names[1..])
  {
    hide Append;
    var n := |names| - 1;
    if n > 0 {
      AppendAllFirst(p, names[..n]);
      assert names[..n][1..] == names[1..][..n - 1];
    }
  }

  // From the current directory the first name is all there is.
  lemma AppendToCurrent(p: string, name: string)
    requires (p == "" || p == CURRENT) && Name(name) && TERMINATOR !in name
    ensures Append(p, name) == name && Components(Strip(p)) == []
    ensures name != CURRENT ==> Components(Strip(name)) == [name]
  {
    hide Components, Strip, UpToNul, Name;
    CurrentIsBare();
    NoNul(name);
    NameIsNotEmpty(name);
    AppendComponents(p, name);
    AppendSplits(p, name);
  }

  lemma NameIsNotEmpty(name: string)
    requires Name(name)
    ensures name != ""
  {
  }

  // Starting there, each leading "." is lost.
  lemma {:induction false} AppendAllAtMost(p: string, names: seq<string>)
    requires (p == "" || p == CURRENT) && AllNames(names)
    ensures |Components(Strip(AppendAll(p, names)))| <= |names|
    ensures names != [] && names[0] != CURRENT ==> Components(Strip(AppendAll(p, names))) == names
    decreases |names|
  {
    hide Components, Strip, Append, AppendAll, Name;
    if names == [] {
      CurrentIsBare();
      AppendAllNone(p);
    } else {
      AppendAllFirst(p, names);
      AppendToCurrent(p, names[0]);
      NameIsNotEmpty(names[0]);
      if names[0] == CURRENT {
        AppendAllAtMost(CURRENT, names[1..]);
      } else {
        AppendAllBeyond(names[0], names[1..]);
        assert names == [names[0]] + names[1..];
      }
    }
  }

  lemma AppendAllNone(p: string)
    ensures AppendAll(p, []) == p
  {
  }

  // Appending names one by one adds exactly those names to the components, unless the
  // first of them is "." and the path is empty or ".".
  lemma AppendAllComponents(p: string, names: seq<string>)
    requires AllNames(names)
    ensures Components(Strip(AppendAll(p, names))) == Components(Strip(p)) + names <==>
      !((p == "" || p == CURRENT) && names != [] && names[0] == CURRENT)
  {
    hide Components, Strip, Append, AppendAll, Name;
    CurrentIsBare();
    if p != "" && p != CURRENT {
      AppendAllBeyond(p, names);
    } else {
      AppendAllAtMost(p, names);
      if names == [] {
        AppendAllNone(p);
      } else if names[0] == CURRENT {
        AppendAllFirst(p, names);
        AppendToCurrent(p, names[0]);
        AppendAllAtMost(CURRENT, names[1..]);
      }
    }
  }

  lemma NoNul(s: string)
    requires TERMINATOR !in s
    ensures UpToNul(s) == s
  {
  }

  lemma AppendGrows(p: string, component: string)
    requires p != "" && p != CURRENT && UpToNul(component) != ""
    ensures |Append(p, component)| > 1
  {
    hide Trimmed, UpToNul;
    StripFacts(p);
  }

  // ---------- append_relative_path ----------

  lemma BasenameIsName(p: string)
    requires p != ""
    ensures AllSeparators(Basename(p)) || Name(Basename(p))
    ensures TERMINATOR !in p ==> TERMINATOR !in Basename(p)
  {
    hide Trimmed;
    StripFacts(p);
    var s := Strip(p);
    var last := LastIndex(s, SEPARATOR);
    assert forall k :: last < k < |s| ==> s[k] != SEPARATOR;
  }

  lemma DirnameKeepsNul(p: string)
    requires TERMINATOR !in p
    ensures TERMINATOR !in Dirname(p)
  {
    hide Dirname;
    DirnameFacts(p);
  }

  // Only the first component can be a root; all others are names.
  lemma {:induction false} WalkIsNames(p: string)
    requires p != "" && TERMINATOR !in p
    ensures forall i :: 0 < i < |Walk(p)| ==> Name(Walk(p)[i]) && TERMINATOR !in Walk(p)[i]
    decreases Size(p)
  {
    hide Dirname, Basename, Name, AllSeparators;
    if Dirname(p) != p {
      DirnameShrinks(p);
      DirnameFacts(p);
      DirnameKeepsNul(p);
      WalkIsNames(Dirname(p));
      BasenameIsName(p);
    }
  }

  lemma ComponentsAreNames(p: string)
    requires TERMINATOR !in p
    ensures forall i :: 0 < i < |Components(p)| ==> Name(Components(p)[i]) && TERMINATOR !in Components(p)[i]
  {
    if p != "" {
      WalkIsNames(p);
    }
  }

  lemma AppendAllStripped(p: string, names: seq<string>)
    requires names != [] && Name(names[|names| - 1]) && TERMINATOR !in names[|names| - 1]
    ensures Strip(AppendAll(p, names)) == AppendAll(p, names)
  {
    hide Strip, Append, Name, UpToNul;
    var n := |names| - 1;
    NoNul(names[n]);
    AppendSplits(AppendAll(p, names[..n]), names[n]);
  }

  method AppendRelativePath(parent: string, child: string, path: string) returns (ok: bool, r: string)
    ensures ok <==> Components(parent) != [] && Components(parent) < Components(child)
    ensures r == if ok then AppendAll(path, Components(child)[|Components(parent)|..]) else path
  {
    hide Components, Append;
    var pc := GetComponents(parent);
    var cc := GetComponents(child);
    r := path;
    if pc == [] || |pc| >= |cc| {
      return false, r;
    }
    var i := 0;
    while i < |pc|
      invariant 0 <= i <= |pc| && pc[..i] == cc[..i]
    {
      if pc[i] != cc[i] {
        return false, r;
      }
      i := i + 1;
    }
    ghost var rest := cc[|pc|..];
    while i < |cc|
      invariant |pc| <= i <= |cc| && r == AppendAll(path, rest[..i - |pc|])
    {
      assert rest[..i + 1 - |pc|][..i - |pc|] == rest[..i - |pc|];
      r := Append(r, cc[i]);
      i := i + 1;
    }
    assert rest[..|rest|] == rest;
    ok := true;
  }

  // The child is rebuilt from its parent, component by component, exactly when the
  // parent is not "." with separators after it.
  lemma RelativeRejoins(parent: string, child: string)
    requires TERMINATOR !in child
    requires Components(parent) != [] && Components(parent) < Components(child)
    ensures Components(AppendAll(parent, Components(child)[|Components(parent)|..])) == Components(child) <==>
      Strip(parent) != CURRENT
  {
    hide Components, Strip, Append, AppendAll, Name, UpToNul;
    CurrentIsBare();
    var pc, rest := Components(parent), Components(child)[|Components(parent)|..];
    ComponentsAreNames(child);
    AppendAllBeyond(parent, rest);
    StripFacts(parent);
    ComponentsOfStripped(parent);
    assert Components(child) == pc + rest;
    AppendAllStripped(parent, rest);
    SameFront(Components(Strip(parent)), pc, rest);
  }

  lemma DotSlash()
    ensures Strip("./") == CURRENT && Components("./") == ["."]
  {
    assert "./"[..1] == CURRENT;
    CurrentIsBare();
    LastIndexUnique(CURRENT, SEPARATOR, -1);
    assert CURRENT[0] != SEPARATOR;
    assert !AllSeparators(CURRENT);
  }

  // "././x" lies below "./", but is not rebuilt from it.
  lemma DotParentLosesItself()
    ensures Components("./") == ["."] && Components("././x") == [".", "x"]
    ensures Components(AppendAll("./", ["x"])) == ["x"]
  {
    hide Components, Strip, UpToNul;
    DotSlash();
    CurrentIsBare();
    NoNul(".");
    NoNul("x");
    StripFixes("./.");
    AppendComponents("./", ".");
    AppendComponents("./", "x");
    AppendComponents("./.", "x");
    assert Append("./", ".") == "./." && Append("./.", "x") == "././x";
    assert ["x"][..0] == [];
  }

  lemma SameFront(a: seq<string>, b: seq<string>, c: seq<string>)
    ensures a + c == b + c <==> a == b
  {
    if a + c == b + c {
      assert |a| == |b|;
      assert a == (a + c)[..|a|] && b == (b + c)[..|b|];
    }
  }

  // ---------- Extensions ----------

  function ToLower(c: char): char {
    if 'A' <= c <= 'Z' then (c as int + 32) as char else c
  }

  predicate LowerCaseEquals(s: string, lower: string) {
    |s| == |lower| && forall k :: 0 <= k < |s| ==> ToLower(s[k]) == lower[k]
  }

  function FinalExtensionPosition(s: string): (i: int)
    ensures -1 <= i < |s|
  {
    if s == CURRENT || s == ".." then -1 else LastIndex(s, '.')
  }

  // A second extension counts too: "user.js", or up to four characters before a
  // compression suffix.
  predicate DoubleExtension(s: string, first: int, last: int)
    requires 0 <= first < last < |s|
  {
    || LowerCaseEquals(s[first + 1..], "user.js")
    || ((exists suffix :: suffix in ["gz", "z", "bz2", "bz"] && LowerCaseEquals(s[last + 1..], suffix)) &&
        1 < last - first <= 5)
  }

  function ExtensionPosition(s: string): (i: int)
    ensures -1 <= i < |s|
  {
    var last := FinalExtensionPosition(s);
    if last <= 0 then last else
    var first := LastIndex(s[..last], '.');
    if first < 0 || first < LastIndex(s[..last], SEPARATOR) then last
    else if DoubleExtension(s, first, last) then first
    else last
  }

  function Extension(p: string): string {
    var base := Basename(p);
    var dot := ExtensionPosition(base);
    if dot < 0 then "" else base[dot..]
  }

  function RemoveExtension(p: string): string {
    if Extension(p) == "" then p else
    var dot := ExtensionPosition(p);
    if dot < 0 then p else UpToNul(p[..dot])
  }

  // In front of a file name, directories do not move its extension.
  lemma ExtensionOfFile(pre: string, base: string)
    requires pre == "" || pre[|pre| - 1] == SEPARATOR
    requires Name(base) && ExtensionPosition(base) >= 0
    ensures ExtensionPosition(pre + base) == |pre| + ExtensionPosition(base)
  {
    hide LastIndex, DoubleExtension;
    var s, last := pre + base, FinalExtensionPosition(base);
    LastIndexConcat(pre, base, '.');
    assert s[|pre|..] == base;
    assert FinalExtensionPosition(s) == |pre| + last;
    if pre == "" {
      assert s == base;
    } else {
      assert s[..|pre| + last] == pre + base[..last];
      LastIndexConcat(pre, base[..last], '.');
      LastIndexConcat(pre, base[..last], SEPARATOR);
      LastIndexUnique(base[..last], SEPARATOR, -1);
      LastIndexUnique(pre, SEPARATOR, |pre| - 1);
      var first := LastIndex(base[..last], '.');
      if 0 <= first {
        DoubleMoves(pre, base, first, last);
      }
    }
  }

  lemma DoubleMoves(pre: string, base: string, first: int, last: int)
    requires 0 <= first < last < |base|
    ensures DoubleExtension(pre + base, |pre| + first, |pre| + last) == DoubleExtension(base, first, last)
  {
    assert (pre + base)[|pre| + first + 1..] == base[first + 1..];
    assert (pre + base)[|pre| + last + 1..] == base[last + 1..];
  }

  lemma ExtensionIsSuffix(base: string)
    requires ExtensionPosition(base) >= 0
    ensures base[ExtensionPosition(base)] == '.'
  {
  }

  // A stripped path is its directories and then its base name.
  lemma BaseIsSuffix(p: string)
    requires p != "" && Strip(p) == p
    ensures var base := Basename(p);
      && |base| <= |p| && p[|p| - |base|..] == base
      && (|base| < |p| ==> p[|p| - |base| - 1] == SEPARATOR)
  {
    hide Strip;
  }

  lemma CutAndJoin(pre: string, base: string, dot: int)
    requires 0 <= dot <= |base|
    ensures (pre + base)[..|pre| + dot] + base[dot..] == pre + base
  {
    assert (pre + base)[..|pre| + dot] == pre + base[..dot];
    assert base == base[..dot] + base[dot..];
  }

  lemma WithoutSeparators(p: string)
    requires Strip(p) == p && TERMINATOR !in p && Name(Basename(p)) && ExtensionPosition(Basename(p)) >= 0
    ensures RemoveExtension(p) + Extension(p) == p
  {
    hide Strip, Basename, ExtensionPosition, UpToNul, LastIndex;
    var base := Basename(p);
    BasenameOfEmpty();
    BaseIsSuffix(p);
    RemoveIs(p[..|p| - |base|], base, p);
  }

  lemma RemoveIs(pre: string, base: string, p: string)
    requires p == pre + base && TERMINATOR !in p && Basename(p) == base && Name(base)
    requires pre == "" || pre[|pre| - 1] == SEPARATOR
    requires ExtensionPosition(base) >= 0
    ensures RemoveExtension(p) + Extension(p) == p
  {
    hide Strip, Basename, ExtensionPosition, UpToNul, LastIndex, Name;
    var dot := ExtensionPosition(base);
    ExtensionOfFile(pre, base);
    assert TERMINATOR !in p[..|pre| + dot];
    NoNul(p[..|pre| + dot]);
    CutAndJoin(pre, base, dot);
  }

  lemma BasenameOfEmpty()
    ensures Basename("") == ""
  {
  }

  lemma WithSeparators(p: string, x: string)
    requires Strip(p) != p && Name(Basename(p)) && ExtensionPosition(Basename(p)) >= 0
    ensures x + Extension(p) != p
  {
    hide Strip, Basename, ExtensionPosition, LastIndex;
    StripFixes(p);
    var base := Basename(p);
    var e := Extension(p);
    assert e[|e| - 1] == base[|base| - 1] != SEPARATOR;
    assert (x + e)[|x + e| - 1] == e[|e| - 1];
  }

  // remove_extension and extension put a path back together exactly when there is no
  // extension or no trailing separator to strip.
  lemma ExtensionRejoins(p: string)
    requires TERMINATOR !in p
    ensures RemoveExtension(p) + Extension(p) == p <==> Extension(p) == "" || Strip(p) == p
  {
    hide Strip, Basename, ExtensionPosition, UpToNul;
    BasenameOfEmpty();
    if Extension(p) != "" {
      ExtensionIsSuffix(Basename(p));
      BasenameIsName(p);
      if Strip(p) == p {
        WithoutSeparators(p);
      } else {
        WithSeparators(p, RemoveExtension(p));
      }
    }
  }
}
