/** In-place replacement of src/StringUtil.cc: five strategies, one result. */
module StringReplace {

  // ---------- Matchers ----------

  datatype Matcher = Substring(pattern: string) | AnyOf(chars: string) {
    function Size(): nat {
      if Substring? then |pattern| else 1
    }

    predicate MatchAt(s: string, i: nat) {
      i + Size() <= |s| && (if Substring? then s[i..i + |pattern|] == pattern else s[i] in chars)
    }
  }

  datatype Found = NPos | At(i: nat)

  // std::string::find and find_first_of for a non-empty match: the leftmost match at
  // or after pos.
  function Find(m: Matcher, s: string, pos: nat): (f: Found)
    requires m.Size() > 0
    ensures f.At? ==> pos <= f.i && m.MatchAt(s, f.i)
    ensures forall j: nat :: pos <= j < (if f.At? then f.i else |s|) ==> !m.MatchAt(s, j)
    decreases if pos < |s| then |s| - pos else 0
  {
    if pos >= |s| then NPos else if m.MatchAt(s, pos) then At(pos) else Find(m, s, pos + 1)
  }

  // ---------- The result, and how long it is ----------

  // The part of s from position from on, with every match replaced, leftmost first
  // and never overlapping.
  function Replaced(m: Matcher, s: string, rep: string, from: nat): string
    requires m.Size() > 0 && from <= |s|
    decreases |s| - from
  {
    match Find(m, s, from)
    case NPos => s[from..]
    case At(i) => s[from..i] + rep + Replaced(m, s, rep, i + m.Size())
  }

  function Count(m: Matcher, s: string, from: nat): nat
    requires m.Size() > 0 && from <= |s|
    decreases |s| - from
  {
    match Find(m, s, from)
    case NPos => 0
    case At(i) => 1 + Count(m, s, i + m.Size())
  }

  // What find sees depends only on the characters from pos on.
  lemma {:induction false} FindInSuffix(m: Matcher, s: string, p: nat, t: string, q: nat)
    requires m.Size() > 0 && p <= |s| && q <= |t| && s[p..] == t[q..]
    ensures Find(m, s, p).At? <==> Find(m, t, q).At?
    ensures Find(m, s, p).At? ==> Find(m, s, p).i - p == Find(m, t, q).i - q
    decreases |s| - p
  {
    assert |s| - p == |t| - q;
    if p < |s| {
      MatchInSuffix(m, s, p, t, q);
      if !m.MatchAt(s, p) {
        assert s[p + 1..] == s[p..][1..] && t[q + 1..] == t[q..][1..];
        FindInSuffix(m, s, p + 1, t, q + 1);
      }
    }
  }

  lemma MatchInSuffix(m: Matcher, s: string, p: nat, t: string, q: nat)
    requires m.Size() > 0 && p < |s| && q < |t| && s[p..] == t[q..]
    ensures m.MatchAt(s, p) <==> m.MatchAt(t, q)
  {
    assert |s[p..]| == |t[q..]|;
    if m.Substring? && p + m.Size() <= |s| {
      assert s[p..p + m.Size()] == s[p..][..m.Size()] && t[q..q + m.Size()] == t[q..][..m.Size()];
    } else {
      assert s[p] == s[p..][0] && t[q] == t[q..][0];
    }
  }

  lemma ReplacedUnfolds(m: Matcher, s: string, rep: string, from: nat, i: nat)
    requires m.Size() > 0 && from <= |s| && Find(m, s, from) == At(i)
    ensures Replaced(m, s, rep, from) == s[from..i] + rep + Replaced(m, s, rep, i + m.Size())
  {
    hide Find;
  }

  lemma CountUnfolds(m: Matcher, s: string, from: nat, i: nat)
    requires m.Size() > 0 && from <= |s| && Find(m, s, from) == At(i)
    ensures Count(m, s, from) == 1 + Count(m, s, i + m.Size())
  {
    hide Find;
  }

  lemma AtMatch(m: Matcher, s: string, rep: string, from: nat, i: nat)
    requires m.Size() > 0 && from <= |s| && Find(m, s, from) == At(i)
    ensures Replaced(m, s, rep, from) == s[from..i] + rep + Replaced(m, s, rep, i + m.Size())
    ensures Count(m, s, from) == 1 + Count(m, s, i + m.Size())
    ensures Find(m, s, i) == At(i)
  {
    hide Find, Replaced, Count;
    ReplacedUnfolds(m, s, rep, from, i);
    CountUnfolds(m, s, from, i);
    FindHere(m, s, i);
  }

  lemma FindHere(m: Matcher, s: string, i: nat)
    requires m.Size() > 0 && m.MatchAt(s, i)
    ensures Find(m, s, i) == At(i)
  {}

  lemma FindLater(m: Matcher, s: string, i: nat)
    requires m.Size() > 0 && i < |s| && !m.MatchAt(s, i)
    ensures Find(m, s, i) == Find(m, s, i + 1)
  {}

  lemma AtEnd(m: Matcher, s: string, rep: string, from: nat)
    requires m.Size() > 0 && from <= |s| && Find(m, s, from) == NPos
    ensures Replaced(m, s, rep, from) == s[from..] && Count(m, s, from) == 0
  {}

  lemma Associate(a: string, b: string, c: string)
    ensures a + b + c == a + (b + c)
  {}

  lemma ReplacedAtMatch(m: Matcher, s: string, rep: string, k: nat)
    requires m.Size() > 0 && k <= |s| && Find(m, s, k) == At(k)
    ensures Replaced(m, s, rep, k) == rep + Replaced(m, s, rep, k + m.Size())
  {
    hide Find, Replaced, Count;
    AtMatch(m, s, rep, k, k);
    assert s[k..k] + rep == rep;
  }

  // Characters before the first match are copied.
  lemma ReplacedSkips(m: Matcher, s: string, rep: string, from: nat, j: nat)
    requires m.Size() > 0 && from <= j < |s| && Find(m, s, from) == At(j)
    ensures Replaced(m, s, rep, from) == s[from..j] + Replaced(m, s, rep, j)
    ensures Count(m, s, from) == Count(m, s, j)
    ensures Find(m, s, j) == At(j)
  {
    hide Find, Replaced, Count;
    AtMatch(m, s, rep, from, j);
    AtMatch(m, s, rep, j, j);
    ReplacedAtMatch(m, s, rep, j);
    Associate(s[from..j], rep, Replaced(m, s, rep, j + m.Size()));
  }

  lemma MulSucc(n: int, d: int)
    ensures (1 + n) * d == d + n * d
  {}

  lemma {:induction false} ReplacedLength(m: Matcher, s: string, rep: string, from: nat)
    requires m.Size() > 0 && from <= |s|
    ensures |Replaced(m, s, rep, from)| == |s| - from + Count(m, s, from) * (|rep| - m.Size())
    decreases |s| - from
  {
    hide Find, Replaced, Count;
    match Find(m, s, from)
    case NPos =>
      AtEnd(m, s, rep, from);
    case At(i) =>
      AtMatch(m, s, rep, from, i);
      ReplacedLength(m, s, rep, i + m.Size());
      MulSucc(Count(m, s, i + m.Size()), |rep| - m.Size());
  }

  // ---------- Independent readings of the result ----------

  // For a character set, every character is treated on its own.
  function MapChars(s: string, chars: string, rep: string): string {
    if s == [] then [] else (if s[0] in chars then rep else [s[0]]) + MapChars(s[1..], chars, rep)
  }

  lemma {:induction false} CharactersAreMapped(s: string, chars: string, rep: string, from: nat)
    requires from <= |s|
    ensures Replaced(AnyOf(chars), s, rep, from) == MapChars(s[from..], chars, rep)
    decreases |s| - from
  {
    var m := AnyOf(chars);
    if from < |s| {
      assert s[from..][1..] == s[from + 1..];
      CharactersAreMapped(s, chars, rep, from + 1);
      if m.MatchAt(s, from) {
        ReplacedAtMatch(m, s, rep, from);
      } else {
        ReplacedStep(m, s, rep, from);
      }
    }
  }

  lemma ReplacedStep(m: Matcher, s: string, rep: string, from: nat)
    requires m.Size() > 0 && from < |s| && !m.MatchAt(s, from)
    ensures Replaced(m, s, rep, from) == [s[from]] + Replaced(m, s, rep, from + 1)
  {
    hide Find, Replaced, Count;
    FindLater(m, s, from);
    match Find(m, s, from + 1)
    case NPos =>
      AtEnd(m, s, rep, from);
      AtEnd(m, s, rep, from + 1);
      assert s[from..] == [s[from]] + s[from + 1..];
    case At(i) =>
      AtMatch(m, s, rep, from, i);
      AtMatch(m, s, rep, from + 1, i);
      assert s[from..i] == [s[from]] + s[from + 1..i];
      Associate([s[from]], s[from + 1..i], rep);
      Associate([s[from]], s[from + 1..i] + rep, Replaced(m, s, rep, i + m.Size()));
  }

  // For a substring: the text between matches, cut at every match.
  function Pieces(pattern: string, s: string, from: nat): (ps: seq<string>)
    requires pattern != "" && from <= |s|
    ensures ps != []
    decreases |s| - from
  {
    match Find(Substring(pattern), s, from)
    case NPos => [s[from..]]
    case At(i) => [s[from..i]] + Pieces(pattern, s, i + |pattern|)
  }

  function Join(ps: seq<string>, sep: string): string
    requires ps != []
  {
    if |ps| == 1 then ps[0] else ps[0] + sep + Join(ps[1..], sep)
  }

  // Joining the pieces with the pattern gives the text back; joining them with the
  // replacement gives the result.
  lemma {:induction false} PiecesRejoin(pattern: string, s: string, rep: string, from: nat)
    requires pattern != "" && from <= |s|
    ensures Join(Pieces(pattern, s, from), pattern) == s[from..]
    ensures Join(Pieces(pattern, s, from), rep) == Replaced(Substring(pattern), s, rep, from)
    decreases |s| - from
  {
    hide Find, Replaced, Join;
    match Find(Substring(pattern), s, from)
    case NPos =>
      AtEnd(Substring(pattern), s, rep, from);
      JoinOne(s[from..], pattern);
      JoinOne(s[from..], rep);
    case At(i) =>
      var rest := Pieces(pattern, s, i + |pattern|);
      PiecesRejoin(pattern, s, rep, i + |pattern|);
      JoinMore(s[from..i], rest, pattern);
      JoinMore(s[from..i], rest, rep);
      SplitAtMatch(pattern, s, from, i);
      ReplacedUnfolds(Substring(pattern), s, rep, from, i);
  }

  lemma JoinOne(x: string, sep: string)
    ensures Join([x], sep) == x
  {
  }

  lemma JoinMore(x: string, ps: seq<string>, sep: string)
    requires ps != []
    ensures Join([x] + ps, sep) == x + sep + Join(ps, sep)
  {
    assert ([x] + ps)[1..] == ps;
  }

  lemma SplitAtMatch(pattern: string, s: string, from: nat, i: nat)
    requires from <= i && Substring(pattern).MatchAt(s, i)
    ensures s[from..] == s[from..i] + pattern + s[i + |pattern|..]
  {
    assert s[i..] == s[i..i + |pattern|] + s[i + |pattern|..];
    assert s[from..] == s[from..i] + s[i..];
    Associate(s[from..i], pattern, s[i + |pattern|..]);
  }

  // ---------- The result in terms of the text alone ----------

  predicate Occurs(pattern: string, s: string, k: int) {
    0 <= k && k + |pattern| <= |s| && s[k..k + |pattern|] == pattern
  }

  // text is ps with the pattern in between, cut at the first place each time: a piece and
  // the pattern after it hold the pattern at their end only, and the last piece nowhere.
  ghost predicate IsCut(ps: seq<string>, pattern: string, text: string) {
    && ps != [] && Join(ps, pattern) == text
    && (forall j :: 0 <= j < |ps| - 1 ==> OnlyAtEnd(pattern, ps[j]))
    && Absent(pattern, ps[|ps| - 1])
  }

  ghost predicate OnlyAtEnd(pattern: string, piece: string) {
    forall k :: Occurs(pattern, piece + pattern, k) ==> k == |piece|
  }

  ghost predicate Absent(pattern: string, piece: string) {
    forall k :: !Occurs(pattern, piece, k)
  }

  ghost predicate HasMatch(m: Matcher, s: string, offset: nat) {
    if m.Substring? then m.pattern != "" && exists i :: offset <= i && Occurs(m.pattern, s, i)
    else exists i :: offset <= i < |s| && s[i] in m.chars
  }

  // w is s with everything after the offset replaced.
  ghost predicate AllReplaced(m: Matcher, s: string, rep: string, offset: nat, w: string) {
    && offset <= |s|
    && if m.Substring?
       then exists ps :: IsCut(ps, m.pattern, s[offset..]) && w == s[..offset] + Join(ps, rep)
       else w == s[..offset] + MapChars(s[offset..], m.chars, rep)
  }

  // w is s with the first match after the offset replaced.
  ghost predicate FirstReplaced(m: Matcher, s: string, rep: string, offset: nat, w: string) {
    if m.Substring?
    then exists i :: offset <= i && Occurs(m.pattern, s, i) && (forall j :: offset <= j < i ==> !Occurs(m.pattern, s, j)) &&
                     w == s[..i] + rep + s[i + |m.pattern|..]
    else exists i :: offset <= i < |s| && s[i] in m.chars && (forall j :: offset <= j < i ==> s[j] !in m.chars) &&
                     w == s[..i] + rep + s[i + 1..]
  }

  // Only one list of pieces is such a cut.
  lemma {:induction false} CutUnique(pattern: string, text: string, ps: seq<string>, qs: seq<string>)
    requires pattern != "" && IsCut(ps, pattern, text) && IsCut(qs, pattern, text)
    ensures ps == qs
    decreases |ps|
  {
    hide Join;
    CutSingle(pattern, text, ps);
    CutSingle(pattern, text, qs);
    if |ps| == 1 {
      JoinOne(ps[0], pattern);
      JoinOne(qs[0], pattern);
      assert ps == [ps[0]] && qs == [qs[0]];
    } else {
      SameFirst(pattern, text, ps, qs);
      CutUnique(pattern, Join(ps[1..], pattern), ps[1..], qs[1..]);
      assert ps == [ps[0]] + ps[1..] && qs == [qs[0]] + qs[1..];
    }
  }

  // A text is one piece exactly when the pattern is not in it.
  lemma CutSingle(pattern: string, text: string, ps: seq<string>)
    requires IsCut(ps, pattern, text)
    ensures |ps| == 1 <==> Absent(pattern, text)
  {
    if |ps| > 1 {
      LaterPattern(pattern, text, ps);
    }
  }

  // After the first of several pieces comes the pattern.
  lemma LaterPattern(pattern: string, text: string, ps: seq<string>)
    requires |ps| > 1 && Join(ps, pattern) == text
    ensures text == ps[0] + pattern + Join(ps[1..], pattern)
    ensures Occurs(pattern, text, |ps[0]|) && text[..|ps[0]| + |pattern|] == ps[0] + pattern
  {
    var n := |ps[0]|;
    assert text[n..n + |pattern|] == pattern;
  }

  lemma SameFirst(pattern: string, text: string, ps: seq<string>, qs: seq<string>)
    requires pattern != "" && |ps| > 1 && |qs| > 1 && Join(ps, pattern) == text && Join(qs, pattern) == text
    requires OnlyAtEnd(pattern, ps[0]) && OnlyAtEnd(pattern, qs[0])
    ensures ps[0] == qs[0] && Join(ps[1..], pattern) == Join(qs[1..], pattern)
  {
    hide Join;
    LaterPattern(pattern, text, ps);
    LaterPattern(pattern, text, qs);
    var p, q := |ps[0]|, |qs[0]|;
    if p < q {
      Inside(pattern, text, qs[0], p);
    } else if q < p {
      Inside(pattern, text, ps[0], q);
    }
    assert ps[0] == text[..p] && qs[0] == text[..q];
    assert Join(ps[1..], pattern) == text[p + |pattern|..] && Join(qs[1..], pattern) == text[q + |pattern|..];
  }

  lemma Inside(pattern: string, text: string, piece: string, k: nat)
    requires Occurs(pattern, text, k) && k < |piece| && |piece| + |pattern| <= |text|
    requires text[..|piece| + |pattern|] == piece + pattern
    ensures Occurs(pattern, piece + pattern, k)
  {
    assert (piece + pattern)[k..k + |pattern|] == text[k..k + |pattern|];
  }

  lemma {:induction false} PiecesAreCut(pattern: string, s: string, from: nat)
    requires pattern != "" && from <= |s|
    ensures IsCut(Pieces(pattern, s, from), pattern, s[from..])
    decreases |s| - from
  {
    hide Find, IsCut;
    match Find(Substring(pattern), s, from)
    case NPos =>
      NothingLeft(pattern, s, from);
      CutOne(s[from..], pattern);
    case At(i) =>
      PiecesAreCut(pattern, s, i + |pattern|);
      FirstPiece(pattern, s, from, i);
      SplitAtMatch(pattern, s, from, i);
      CutMore(s[from..i], Pieces(pattern, s, i + |pattern|), pattern, s[i + |pattern|..]);
  }

  lemma CutOne(piece: string, pattern: string)
    requires Absent(pattern, piece)
    ensures IsCut([piece], pattern, piece)
  {
    hide Absent;
  }

  lemma CutMore(piece: string, rest: seq<string>, pattern: string, text: string)
    requires OnlyAtEnd(pattern, piece) && IsCut(rest, pattern, text)
    ensures IsCut([piece] + rest, pattern, piece + pattern + text)
  {
    hide OnlyAtEnd, Absent, Join;
    var ps := [piece] + rest;
    JoinMore(piece, rest, pattern);
    assert ps[|ps| - 1] == rest[|rest| - 1];
    assert forall j :: 0 < j < |ps| ==> ps[j] == rest[j - 1];
  }

  lemma OccursIsMatch(pattern: string, s: string, i: nat)
    ensures Occurs(pattern, s, i) <==> Substring(pattern).MatchAt(s, i)
  {
  }

  lemma SliceOfSlice(s: string, from: nat, to: nat, i: nat, j: nat)
    requires from <= to <= |s| && i <= j <= to - from
    ensures s[from..to][i..j] == s[from + i..from + j]
  {
    var a, b := s[from..to][i..j], s[from + i..from + j];
    assert |a| == |b| && forall k :: 0 <= k < |a| ==> a[k] == b[k];
  }

  lemma OccursWithin(pattern: string, s: string, from: nat, to: nat, k: nat)
    requires from <= to <= |s| && k + |pattern| <= to - from
    ensures Occurs(pattern, s[from..to], k) <==> Occurs(pattern, s, from + k)
  {
    SliceOfSlice(s, from, to, k, k + |pattern|);
  }

  lemma FirstPiece(pattern: string, s: string, from: nat, i: nat)
    requires pattern != "" && from <= |s| && Find(Substring(pattern), s, from) == At(i)
    ensures OnlyAtEnd(pattern, s[from..i])
  {
    hide Find, Occurs;
    var piece := s[from..i];
    assert piece + pattern == s[from..i + |pattern|];
    forall k | Occurs(pattern, piece + pattern, k) ensures k == |piece| {
      OccursFits(pattern, piece + pattern, k);
      OccursWithin(pattern, s, from, i + |pattern|, k);
      OccursIsMatch(pattern, s, from + k);
    }
  }

  lemma OccursFits(pattern: string, s: string, k: int)
    requires Occurs(pattern, s, k)
    ensures 0 <= k && k + |pattern| <= |s|
  {
  }

  lemma NothingLeft(pattern: string, s: string, from: nat)
    requires pattern != "" && from <= |s| && Find(Substring(pattern), s, from) == NPos
    ensures Absent(pattern, s[from..])
  {
    hide Find;
    assert s[from..] == s[from..|s|];
    forall k ensures !Occurs(pattern, s[from..], k) {
      if 0 <= k && k + |pattern| <= |s| - from {
        OccursWithin(pattern, s, from, |s|, k);
        assert !Substring(pattern).MatchAt(s, from + k);
      }
    }
  }

  // find and find_first_of see exactly what is there.
  lemma FoundMeans(m: Matcher, s: string, pos: nat)
    ensures HasMatch(m, s, pos) <==> m.Size() > 0 && Find(m, s, pos).At?
  {
    if m.Size() > 0 {
      if m.Substring? {
        assert forall i: nat :: Occurs(m.pattern, s, i) <==> m.MatchAt(s, i);
      } else {
        assert forall i: nat :: (i < |s| && s[i] in m.chars) <==> m.MatchAt(s, i);
      }
    }
  }

  lemma FirstMeans(m: Matcher, s: string, rep: string, pos: nat)
    requires m.Size() > 0 && Find(m, s, pos).At?
    ensures var i := Find(m, s, pos).i; FirstReplaced(m, s, rep, pos, s[..i] + rep + s[i + m.Size()..])
  {
    hide Find;
    var i := Find(m, s, pos).i;
    if m.Substring? {
      assert Occurs(m.pattern, s, i);
      forall j | pos <= j < i ensures !Occurs(m.pattern, s, j) {
        OccursIsMatch(m.pattern, s, j);
      }
    } else {
      assert s[i] in m.chars;
      forall j | pos <= j < i ensures s[j] !in m.chars {
        assert !m.MatchAt(s, j);
      }
    }
  }

  lemma GoalMeans(m: Matcher, s: string, rep: string, o: nat)
    requires m.Size() > 0 && Find(m, s, o).At?
    ensures o <= |s| && AllReplaced(m, s, rep, o, Goal(m, s, rep, o))
  {
    hide Replaced, IsCut, Join, Pieces;
    if m.Substring? {
      PiecesAreCut(m.pattern, s, o);
      PiecesRejoin(m.pattern, s, rep, o);
    } else {
      CharactersAreMapped(s, m.chars, rep, o);
    }
  }

  // ---------- std::string as an array, a length and a capacity ----------

  function Overwrite(s: string, at: nat, src: string): (r: string)
    requires at + |src| <= |s|
    ensures |r| == |s|
  {
    s[..at] + src + s[at + |src|..]
  }

  lemma OverwriteAt(s: string, at: nat, src: string, k: nat)
    requires at + |src| <= |s| && k < |s|
    ensures Overwrite(s, at, src)[k] == if at <= k < at + |src| then src[k - at] else s[k]
  {
  }

  class StdString {
    var data: array<char>
    var length: nat

    ghost predicate Valid()
      reads this
    {
      length <= data.Length
    }

    function Value(): (s: string)
      reads this, data
      requires Valid()
      ensures |s| == length
    {
      data[..length]
    }

    function Capacity(): nat
      reads this
    {
      data.Length
    }

    constructor (s: string, capacity: nat)
      requires |s| <= capacity
      ensures Valid() && fresh(data) && Value() == s && Capacity() == capacity
    {
      data := new char[capacity](i => if 0 <= i < |s| then s[i] else '\0');
      length := |s|;
    }

    // CharTraits::copy into the characters at position at.
    method Copy(at: nat, src: string)
      requires Valid() && at + |src| <= length
      modifies data
      ensures Valid() && Value() == Overwrite(old(Value()), at, src)
    {
      ghost var was := Value();
      forall i | 0 <= i < |src| {
        data[at + i] := src[i];
      }
      forall k | 0 <= k < length ensures Value()[k] == Overwrite(was, at, src)[k] {
        OverwriteAt(was, at, src, k);
        assert data[k] == if at <= k < at + |src| then src[k - at] else was[k];
      }
    }

    // CharTraits::move within the string: as if through a copy.
    method Move(dst: nat, src: nat, n: nat)
      requires Valid() && dst + n <= length && src + n <= length
      modifies data
      ensures Valid() && Value() == Overwrite(old(Value()), dst, old(Value())[src..src + n])
    {
      var text := data[src..src + n];
      assert text == Value()[src..src + n];
      Copy(dst, text);
    }

    // Assign s, in place when it fits.
    method Store(s: string)
      requires Valid()
      modifies this, data
      ensures Valid() && Value() == s && (fresh(data) || data == old(data))
      ensures |s| <= old(Capacity()) ==> data == old(data)
    {
      if data.Length < |s| {
        data := new char[|s|];
      }
      length := |s|;
      Copy(0, s);
    }

    // resize: cut, or pad with NULs.
    method Resize(n: nat)
      requires Valid()
      modifies this, data
      ensures Valid() && (fresh(data) || data == old(data))
      ensures Value() == if n <= |old(Value())| then old(Value())[..n]
                         else old(Value()) + seq(n - |old(Value())|, _ => '\0')
      ensures n <= old(Capacity()) ==> data == old(data)
    {
      var v := Value();
      if n <= length {
        length := n;
      } else {
        Store(v + seq(n - |v|, _ => '\0'));
      }
    }

    // replace(pos, n, src)
    method ReplaceRange(pos: nat, n: nat, src: string)
      requires Valid() && pos <= length
      modifies this, data
      ensures Valid() && (fresh(data) || data == old(data))
      ensures var v := old(Value()); var end := if pos + n <= |v| then pos + n else |v|;
        Value() == v[..pos] + src + v[end..] && (|Value()| <= old(Capacity()) ==> data == old(data))
    {
      var end := if pos + n <= length then pos + n else length;
      Store(data[..pos] + src + data[end..length]);
    }
  }

  // ---------- The strategies ----------

  // What REPLACE_ALL from offset o must leave in the string.
  function Goal(m: Matcher, s: string, rep: string, o: nat): string
    requires m.Size() > 0 && o <= |s|
  {
    s[..o] + Replaced(m, s, rep, o)
  }

  lemma Regroup(done: string, gap: string, rep: string, rest: string)
    ensures done + (gap + rep + rest) == (done + gap + rep) + rest
    ensures done + (gap + rest) == (done + gap) + rest
  {
    Associate(done, gap, rest);
    Associate(done, gap + rep, rest);
    Associate(done, gap, rep);
  }

  // Matches overwritten where they stand.
  method EqualLength(str: StdString, m: Matcher, rep: string, ghost o: nat, first: nat)
    requires str.Valid() && |rep| == m.Size() > 0
    requires o <= |str.Value()| && Find(m, str.Value(), o) == At(first)
    modifies str.data
    ensures str.Valid() && str.Value() == Goal(m, old(str.Value()), rep, o)
  {
    hide Find, Replaced, Count;
    ghost var s := str.Value();
    ghost var pos := o;
    var offset := At(first);
    while offset.At?
      invariant o <= pos <= |s| == str.length
      invariant offset == Find(m, s, pos)
      invariant str.Value()[pos..] == s[pos..]
      invariant str.Value()[..pos] + Replaced(m, s, rep, pos) == Goal(m, s, rep, o)
      decreases offset.At?, |s| - pos
    {
      var i, next := offset.i, offset.i + |rep|;
      ghost var v := str.Value();
      str.Copy(i, rep);
      AtMatch(m, s, rep, pos, i);
      EqualStep(v, s, rep, pos, i, str.Value());
      Regroup(v[..pos], s[pos..i], rep, Replaced(m, s, rep, next));
      FindInSuffix(m, str.Value(), next, s, next);
      pos := next;
      offset := Find(m, str.Value(), next);
    }
    AtEnd(m, s, rep, pos);
    assert str.Value() == str.Value()[..pos] + str.Value()[pos..];
  }

  lemma EqualStep(v: string, s: string, rep: string, pos: nat, i: nat, v': string)
    requires pos <= i && i + |rep| <= |s| == |v| && v[pos..] == s[pos..] && v' == Overwrite(v, i, rep)
    ensures v'[..i + |rep|] == v[..pos] + s[pos..i] + rep
    ensures v'[i + |rep|..] == s[i + |rep|..]
  {
    assert v[..i] == v[..pos] + v[pos..][..i - pos] && s[pos..i] == s[pos..][..i - pos];
    assert v[i + |rep|..] == v[pos..][i + |rep| - pos..] && s[i + |rep|..] == s[pos..][i + |rep| - pos..];
  }

  // First pass of the lengthening strategies.
  method CountMatches(s: string, m: Matcher, first: nat, ghost o: nat, perMatch: nat)
    returns (expansion: nat, matches: nat)
    requires m.Size() > 0 && o <= |s| && Find(m, s, o) == At(first)
    ensures matches == Count(m, s, o) && expansion == Count(m, s, o) * perMatch
  {
    hide Find, Replaced, Count;
    expansion, matches := 0, 0;
    var found := At(first);
    ghost var pos := o;
    while found.At?
      invariant o <= pos <= |s| && found == Find(m, s, pos)
      invariant matches + Count(m, s, pos) == Count(m, s, o)
      invariant expansion == matches * perMatch
      decreases found.At?, |s| - pos
    {
      AtMatch(m, s, "", pos, found.i);
      MulSucc(matches, perMatch);
      expansion := expansion + perMatch;
      matches := matches + 1;
      pos := found.i + m.Size();
      found := Find(m, s, found.i + m.Size());
    }
    AtEnd(m, s, "", pos);
  }

  // The result built in a new allocation, skipping the search past the last match.
  method GrowFresh(s: string, m: Matcher, rep: string, ghost o: nat, first: nat, matches: nat) returns (out: string)
    requires m.Size() > 0 && o <= |s| && Find(m, s, o) == At(first) && matches == Count(m, s, o)
    ensures out == Goal(m, s, rep, o)
  {
    hide Find, Replaced, Count;
    out := "";
    var pos, i, left := 0, first, matches;
    AtMatch(m, s, rep, o, first);
    Regroup(s[..o], s[o..first], rep, Replaced(m, s, rep, first + m.Size()));
    assert s[..o] + s[o..first] == s[0..first];
    while true
      invariant pos <= i && i + m.Size() <= |s| && left > 0
      invariant left == 1 + Count(m, s, i + m.Size())
      invariant out + s[pos..i] + rep + Replaced(m, s, rep, i + m.Size()) == Goal(m, s, rep, o)
      decreases left
    {
      out := out + s[pos..i];
      out := out + rep;
      pos := i + m.Size();
      left := left - 1;
      if left == 0 {
        break;
      }
      CountedMatch(m, s, rep, pos);
      i := Find(m, s, pos).i;
      AtMatch(m, s, rep, pos, i);
      Regroup(out, s[pos..i], rep, Replaced(m, s, rep, i + m.Size()));
    }
    CountedMatch(m, s, rep, pos);
    out := out + s[pos..];
  }

  lemma CountedMatch(m: Matcher, s: string, rep: string, pos: nat)
    requires m.Size() > 0 && pos <= |s|
    ensures Count(m, s, pos) > 0 <==> Find(m, s, pos).At?
    ensures Count(m, s, pos) == 0 ==> Replaced(m, s, rep, pos) == s[pos..]
  {}

  // Between two rounds of the copy/move loop: write and read are the cursors, the
  // string is expansion longer than the original s, and the match being replaced is
  // the one read points at (its own characters may already be gone).
  ghost predicate Midway(v: string, m: Matcher, s: string, rep: string, o: nat, expansion: nat, write: nat, read: nat)
    requires m.Size() > 0 && o <= |s|
  {
    && |v| == |s| + expansion && expansion <= read && read + m.Size() <= |v|
    && var k := read - expansion;
    && Find(m, s, k) == At(k)
    && v[read + m.Size()..] == s[k + m.Size()..]
    && write <= read
    && (|rep| > m.Size() ==> read - write == Count(m, s, k) * (|rep| - m.Size()))
    && v[..write] + Replaced(m, s, rep, k) == Goal(m, s, rep, o)
  }

  // After the replacement has been written: everything before write is final, and
  // everything from read on is still the original.
  ghost predicate Copied(v: string, m: Matcher, s: string, rep: string, o: nat, expansion: nat, write: nat, read: nat)
    requires m.Size() > 0 && o <= |s|
  {
    && |v| == |s| + expansion && expansion <= read <= |v|
    && v[read..] == s[read - expansion..]
    && write <= read
    && (|rep| > m.Size() ==> read - write == Count(m, s, read - expansion) * (|rep| - m.Size()))
    && v[..write] + Replaced(m, s, rep, read - expansion) == Goal(m, s, rep, o)
  }

  // Writing one replacement cannot reach the unread characters.
  lemma CopyFits(m: Matcher, s: string, rep: string, k: nat, write: nat, read: nat)
    requires m.Size() > 0 && k <= |s| && Find(m, s, k) == At(k) && write <= read
    requires |rep| > m.Size() ==> read - write == Count(m, s, k) * (|rep| - m.Size())
    ensures write + |rep| <= read + m.Size()
    ensures |rep| > m.Size() ==>
      read + m.Size() - write - |rep| == Count(m, s, k + m.Size()) * (|rep| - m.Size())
  {
    hide Find, Replaced, Count;
    AtMatch(m, s, rep, k, k);
    if |rep| > m.Size() {
      var n, d := Count(m, s, k + m.Size()), |rep| - m.Size();
      MulSucc(n, d);
      assert n * d >= 0;
    }
  }

  lemma CopyStep(v: string, v': string, m: Matcher, s: string, rep: string, o: nat, expansion: nat, write: nat, read: nat)
    requires m.Size() > 0 && o <= |s| && Midway(v, m, s, rep, o, expansion, write, read)
    requires write + |rep| <= |v| && v' == Overwrite(v, write, rep)
    ensures Copied(v', m, s, rep, o, expansion, write + |rep|, read + m.Size())
  {
    hide Find, Replaced, Count, Goal;
    var k := read - expansion;
    CopyFits(m, s, rep, k, write, read);
    ReplacedAtMatch(m, s, rep, k);
    assert v'[..write + |rep|] == v[..write] + rep;
    Associate(v[..write], rep, Replaced(m, s, rep, k + m.Size()));
    assert v'[read + m.Size()..] == v[read + m.Size()..];
  }

  lemma MoveStep(v: string, v': string, m: Matcher, s: string, rep: string, o: nat, expansion: nat, write: nat, read: nat, n: nat)
    requires m.Size() > 0 && o <= |s| && Copied(v, m, s, rep, o, expansion, write, read)
    requires read + n <= |v| && v' == Overwrite(v, write, v[read..read + n])
    requires Find(m, v, read) == if read + n < |v| then At(read + n) else NPos
    ensures read + n < |v| ==> Midway(v', m, s, rep, o, expansion, write + n, read + n)
    ensures read + n == |v| ==> v'[..write + n] == Goal(m, s, rep, o)
  {
    hide Find, Replaced, Count, Goal, Overwrite;
    var k := read - expansion;
    var j := k + n;
    FindInSuffix(m, v, read, s, k);
    MovedHead(v, v', s, write, read, n, k);
    if read + n < |v| {
      ReplacedSkips(m, s, rep, k, j);
      Associate(v[..write], s[k..j], Replaced(m, s, rep, j));
      MovedTail(v, v', s, write, read, n, m.Size(), k);
    } else {
      AtEnd(m, s, rep, k);
      assert s[k..] == s[k..j];
    }
  }

  lemma MovedHead(v: string, v': string, s: string, write: nat, read: nat, n: nat, k: nat)
    requires write <= read && read + n <= |v| && k + n <= |s| && v[read..] == s[k..]
    requires v' == Overwrite(v, write, v[read..read + n])
    ensures v'[..write + n] == v[..write] + s[k..k + n]
  {
    assert v[read..read + n] == v[read..][..n] == s[k..][..n] == s[k..k + n];
  }

  lemma MovedTail(v: string, v': string, s: string, write: nat, read: nat, n: nat, size: nat, k: nat)
    requires write <= read && read + n + size <= |v| && k + n + size <= |s| && v[read..] == s[k..]
    requires v' == Overwrite(v, write, v[read..read + n])
    ensures v'[read + n + size..] == s[k + n + size..]
  {
    assert v'[read + n + size..] == v[read + n + size..] == v[read..][n + size..];
    assert s[k + n + size..] == s[k..][n + size..];
  }

  // One round of the loop: write a replacement, then move the text up to the next match.
  method MoveRound(str: StdString, m: Matcher, rep: string, ghost s: string, ghost o: nat, ghost expansion: nat,
                   write0: nat, read0: nat) returns (write: nat, read: nat)
    requires str.Valid() && m.Size() > 0 && o <= |s|
    requires Midway(str.Value(), m, s, rep, o, expansion, write0, read0)
    modifies str.data
    ensures str.Valid() && read0 < read <= str.length && write <= read
    ensures read < str.length ==> Midway(str.Value(), m, s, rep, o, expansion, write, read)
    ensures read == str.length ==> str.Value()[..write] == Goal(m, s, rep, o)
  {
    hide Find, Replaced, Count, Midway, Copied, Overwrite, Goal;
    ghost var v := str.Value();
    MidwayBounds(v, m, s, rep, o, expansion, write0, read0);
    if |rep| != 0 {
      str.Copy(write0, rep);
    } else {
      OverwriteNothing(v, write0, rep);
    }
    CopyStep(v, str.Value(), m, s, rep, o, expansion, write0, read0);
    write := write0 + |rep|;
    read := read0 + m.Size();
    v := str.Value();
    CopiedBounds(v, m, s, rep, o, expansion, write, read);
    var found := Find(m, str.Value(), read);
    var length := (if found.At? then found.i else str.length) - read;
    if length != 0 {
      str.Move(write, read, length);
    } else {
      OverwriteNothing(v, write, v[read..read + length]);
    }
    MoveStep(v, str.Value(), m, s, rep, o, expansion, write, read, length);
    write := write + length;
    read := read + length;
  }

  lemma OverwriteNothing(v: string, at: nat, src: string)
    requires at <= |v| && |src| == 0
    ensures Overwrite(v, at, src) == v
  {}

  // Alternate replacement and move; then cut the string to what was written.
  method MoveLoop(str: StdString, m: Matcher, rep: string, ghost s: string, ghost o: nat, expansion: nat, first: nat)
    requires str.Valid() && m.Size() > 0 && o <= |s|
    requires Midway(str.Value(), m, s, rep, o, expansion, first, first + expansion)
    modifies str, str.data
    ensures str.Valid() && str.data == old(str.data) && str.Value() == Goal(m, s, rep, o)
  {
    hide Find, Replaced, Count, Midway, Goal;
    var write, read := MoveRound(str, m, rep, s, o, expansion, first, first + expansion);
    while read < str.length
      invariant str.Valid() && str.data == old(str.data) && 0 <= write <= read <= str.length
      invariant read < str.length ==> Midway(str.Value(), m, s, rep, o, expansion, write, read)
      invariant read == str.length ==> str.Value()[..write] == Goal(m, s, rep, o)
    {
      write, read := MoveRound(str, m, rep, s, o, expansion, write, read);
    }
    str.Resize(write);
  }

  lemma MidwayBounds(v: string, m: Matcher, s: string, rep: string, o: nat, expansion: nat, write: nat, read: nat)
    requires m.Size() > 0 && o <= |s| && Midway(v, m, s, rep, o, expansion, write, read)
    ensures write <= read && write + |rep| <= read + m.Size() <= |v|
  {
    CopyFits(m, s, rep, read - expansion, write, read);
  }

  lemma CopiedBounds(v: string, m: Matcher, s: string, rep: string, o: nat, expansion: nat, write: nat, read: nat)
    requires m.Size() > 0 && o <= |s| && Copied(v, m, s, rep, o, expansion, write, read)
    ensures write <= read <= |v|
  {}

  // The string stretched by shifting everything after the first match to its end.
  function Stretched(s: string, after: nat, expansion: nat): string
    requires after <= |s|
  {
    (if after + expansion <= |s| then s[..after + expansion]
     else s + seq(after + expansion - |s|, _ => '\0')) + s[after..]
  }

  method ShiftTail(str: StdString, after: nat, expansion: nat)
    requires str.Valid() && after <= str.length && str.length + expansion <= str.Capacity()
    modifies str, str.data
    ensures str.Valid() && str.data == old(str.data)
    ensures str.Value() == Stretched(old(str.Value()), after, expansion)
  {
    var strLength, shiftDst := str.length, after + expansion;
    ghost var s := str.Value();
    if shiftDst > strLength {
      str.Resize(shiftDst);
    }
    var tail := str.Value()[after..strLength];
    assert tail == s[after..];
    str.ReplaceRange(shiftDst, strLength - after, tail);
  }

  lemma StartMidway(v: string, m: Matcher, s: string, rep: string, o: nat, expansion: nat, first: nat)
    requires m.Size() > 0 && o <= |s| && Find(m, s, o) == At(first)
    requires v == Stretched(s, first + m.Size(), expansion) || (expansion == 0 && v == s)
    requires |rep| > m.Size() ==> expansion == Count(m, s, o) * (|rep| - m.Size())
    ensures Midway(v, m, s, rep, o, expansion, first, first + expansion)
  {
    hide Find, Replaced, Count, Stretched, Goal;
    ReplacedSkips(m, s, rep, o, first);
    var after := first + m.Size();
    if v == Stretched(s, after, expansion) {
      StretchedParts(s, first, after, expansion);
    }
    GoalFromFirst(m, s, rep, o, first);
  }

  lemma StretchedParts(s: string, first: nat, after: nat, expansion: nat)
    requires first <= after <= |s|
    ensures var v := Stretched(s, after, expansion);
      |v| == |s| + expansion && v[..first] == s[..first] && v[after + expansion..] == s[after..]
  {
  }

  lemma GoalFromFirst(m: Matcher, s: string, rep: string, o: nat, first: nat)
    requires m.Size() > 0 && o <= first < |s|
    requires Replaced(m, s, rep, o) == s[o..first] + Replaced(m, s, rep, first)
    ensures s[..first] + Replaced(m, s, rep, first) == Goal(m, s, rep, o)
  {
    hide Replaced;
    assert s[..first] == s[..o] + s[o..first];
    Associate(s[..o], s[o..first], Replaced(m, s, rep, first));
  }

  datatype ReplaceType = ReplaceAll | ReplaceFirst

  // do_replace_matches_after_offset
  method ReplaceMatchesAfterOffset(str: StdString, offset: nat, m: Matcher, rep: string, kind: ReplaceType)
    returns (changed: bool)
    requires str.Valid()
    modifies str, str.data
    ensures str.Valid()
    ensures changed <==> HasMatch(m, old(str.Value()), offset)
    ensures !changed ==> str.Value() == old(str.Value())
    ensures changed && kind == ReplaceAll ==> AllReplaced(m, old(str.Value()), rep, offset, str.Value())
    ensures changed && kind == ReplaceFirst ==> FirstReplaced(m, old(str.Value()), rep, offset, str.Value())
    ensures changed && kind == ReplaceAll ==>
      offset <= |old(str.Value())| && str.Value() == Goal(m, old(str.Value()), rep, offset)
  {
    hide Find, Goal, HasMatch, AllReplaced, FirstReplaced;
    FoundMeans(m, str.Value(), offset);
    if m.Size() > 0 && Find(m, str.Value(), offset).At? {
      GoalMeans(m, str.Value(), rep, offset);
      FirstMeans(m, str.Value(), rep, offset);
    }
    changed := ReplaceMatches(str, offset, m, rep, kind);
  }

  method ReplaceMatches(str: StdString, offset: nat, m: Matcher, rep: string, kind: ReplaceType)
    returns (changed: bool)
    requires str.Valid()
    modifies str, str.data
    ensures str.Valid()
    ensures changed <==> m.Size() > 0 && Find(m, old(str.Value()), offset).At?
    ensures !changed ==> str.Value() == old(str.Value())
    ensures changed && kind == ReplaceAll ==> offset <= |old(str.Value())|
    ensures changed && kind == ReplaceAll ==> str.Value() == Goal(m, old(str.Value()), rep, offset)
    ensures changed && kind == ReplaceFirst ==>
      var i := Find(m, old(str.Value()), offset).i;
      str.Value() == old(str.Value())[..i] + rep + old(str.Value())[i + m.Size()..]
  {
    hide Find, Replaced, Count, Midway, Goal, Stretched;
    var findLength := m.Size();
    if findLength == 0 {
      return false;
    }
    var found := Find(m, str.Value(), offset);
    if found == NPos {
      return false;
    }
    var first := found.i;
    if kind == ReplaceFirst {
      str.ReplaceRange(first, findLength, rep);
      return true;
    }
    if findLength == |rep| {
      EqualLength(str, m, rep, offset, first);
      return true;
    }
    ghost var s := str.Value();
    var expansion := 0;
    if |rep| > findLength {
      var matches;
      expansion, matches := CountMatches(str.Value(), m, first, offset, |rep| - findLength);
      if str.Capacity() < str.length + expansion {
        var out := GrowFresh(str.Value(), m, rep, offset, first, matches);
        str.Store(out);
        return true;
      }
      ShiftTail(str, first + findLength, expansion);
    }
    StartMidway(str.Value(), m, s, rep, offset, expansion, first);
    MoveLoop(str, m, rep, s, offset, expansion, first);
    return true;
  }

  // replace_chars and remove_chars (an empty replacement), into a string of their own.
  method ReplaceChars(input: string, chars: string, rep: string, output: StdString) returns (changed: bool)
    requires output.Valid()
    modifies output, output.data
    ensures output.Valid() && output.Value() == MapChars(input, chars, rep)
    ensures changed <==> exists c :: c in input && c in chars
  {
    hide Find, Replaced, Goal;
    output.Store(input);
    changed := ReplaceMatchesAfterOffset(output, 0, AnyOf(chars), rep, ReplaceAll);
    CharsFound(input, chars, rep);
  }

  lemma CharsFound(s: string, chars: string, rep: string)
    ensures Find(AnyOf(chars), s, 0).At? <==> exists c :: c in s && c in chars
    ensures Goal(AnyOf(chars), s, rep, 0) == MapChars(s, chars, rep)
    ensures !Find(AnyOf(chars), s, 0).At? ==> MapChars(s, chars, rep) == s
  {
    var m := AnyOf(chars);
    CharactersAreMapped(s, chars, rep, 0);
    assert s[0..] == s && s[..0] == "";
    match Find(m, s, 0)
    case At(i) => assert s[i] in s && s[i] in chars;
    case NPos =>
      forall c | c in s
        ensures c !in chars
      {
        var j :| 0 <= j < |s| && s[j] == c;
        assert !m.MatchAt(s, j);
      }
  }
}
