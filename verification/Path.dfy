/** Unix paths and their double-ended component parser: a front and a back cursor consume
    one text, and together yield one list of components. */
module Path {
  import opened Common

  datatype Component = RootDir | DoubleSlashRootDir | CurDir | ParentDir | Normal(name: string)

  datatype State = StartDir | Body | Done

  // ---------------------------------------------------------------- specification

  /** `lo` and `hi` bound a part of the text. */
  predicate Within(s: string, lo: int, hi: int) { 0 <= lo <= hi <= |s| }

  /** Where the piece that starts at `lo` ends: at a slash, or at `hi`. */
  function End(s: string, lo: nat, hi: nat): (e: nat)
    requires Within(s, lo, hi)
    ensures lo <= e <= hi && (e < hi ==> s[e] == '/') && (lo < hi && s[lo] != '/' ==> lo < e)
    decreases hi - lo
  {
    if lo == hi || s[lo] == '/' then lo else End(s, lo + 1, hi)
  }

  predicate Single(name: string, c: char) { |name| == 1 && name[0] == c }

  predicate Double(name: string, c: char) { |name| == 2 && name[0] == c && name[1] == c }

  function Classify(name: string): Component {
    if Single(name, '.') then CurDir else if Double(name, '.') then ParentDir else Normal(name)
  }

  /** The non-empty pieces between the slashes of a part of the text. */
  function Pieces(s: string, lo: nat, hi: nat): seq<Component>
    requires Within(s, lo, hi)
    decreases hi - lo
  {
    if lo == hi then []
    else if s[lo] == '/' then Pieces(s, lo + 1, hi)
    else var e := End(s, lo, hi); [Classify(s[lo..e])] + Pieces(s, e, hi)
  }

  predicate TwoSlashes(s: string) {
    |s| >= 2 && s[0] == '/' && s[1] == '/' && (|s| == 2 || s[2] != '/')
  }

  predicate IsAbsolute(s: string) { s != [] && s[0] == '/' }

  function Root(s: string): seq<Component> {
    if TwoSlashes(s) then [DoubleSlashRootDir] else if IsAbsolute(s) then [RootDir] else []
  }

  function AllPieces(s: string): seq<Component> { Pieces(s, 0, |s|) }

  /** The components of a path: its root, if any, then its pieces. */
  function ComponentsOf(s: string): seq<Component> { Root(s) + AllPieces(s) }

  // ---------------------------------------------------------------- splitting

  lemma {:induction false} EndBefore(s: string, lo: nat, i: nat, hi: nat)
    requires Within(s, lo, i) && Within(s, i, hi) && (i < hi ==> s[i] == '/')
    ensures End(s, lo, hi) == End(s, lo, i)
    decreases i - lo
  {
    if lo < i && s[lo] != '/' {
      EndBefore(s, lo + 1, i, hi);
    }
  }

  lemma Assoc(a: seq<Component>, b: seq<Component>, c: seq<Component>)
    ensures a + (b + c) == a + b + c
  {
  }

  /** A slash separates: the pieces before it, then the pieces after it. */
  lemma {:induction false} PiecesSplit(s: string, lo: nat, i: nat, hi: nat)
    requires Within(s, lo, i) && i < hi <= |s| && s[i] == '/'
    ensures Pieces(s, lo, hi) == Pieces(s, lo, i) + Pieces(s, i + 1, hi)
    decreases i - lo
  {
    if lo < i {
      if s[lo] == '/' {
        PiecesSplit(s, lo + 1, i, hi);
      } else {
        EndBefore(s, lo, i, hi);
        var e := End(s, lo, i);
        PiecesSplit(s, e, i, hi);
        Assoc([Classify(s[lo..e])], Pieces(s, e, i), Pieces(s, i + 1, hi));
      }
    }
  }

  /** `n` characters of one text are those of another. */
  ghost predicate Same(s: string, lo: nat, t: string, at: nat, n: nat) {
    && lo + n <= |s| && at + n <= |t|
    && forall k {:trigger At(k)} :: At(k) && 0 <= k < n ==> s[lo + k] == t[at + k]
  }

  lemma SameTail(s: string, lo: nat, t: string, at: nat, n: nat, m: nat)
    requires Same(s, lo, t, at, n) && m <= n
    ensures Same(s, lo + m, t, at + m, n - m)
    ensures s[lo..lo + m] == t[at..at + m]
  {
    forall k {:trigger At(k)} | At(k) && 0 <= k < n - m
      ensures s[lo + m + k] == t[at + m + k]
    {
      assert At(m + k);
    }
    var a, b := s[lo..lo + m], t[at..at + m];
    forall k | 0 <= k < m
      ensures a[k] == b[k]
    {
      assert At(k);
    }
  }

  lemma {:induction false} EndSame(s: string, lo: nat, t: string, at: nat, n: nat)
    requires Same(s, lo, t, at, n)
    ensures End(s, lo, lo + n) - lo == End(t, at, at + n) - at
    decreases n
  {
    if n > 0 {
      assert At(0);
      SameTail(s, lo, t, at, n, 1);
      EndSame(s, lo + 1, t, at + 1, n - 1);
    }
  }

  lemma SlashSame(s: string, lo: nat, hi: nat, t: string, at: nat, to: nat)
    requires Within(s, lo, hi) && Within(t, at, to) && hi - lo == to - at && Same(s, lo, t, at, hi - lo)
    requires lo < hi
    ensures s[lo] == t[at] && Same(s, lo + 1, t, at + 1, hi - lo - 1)
  {
    assert At(0);
    SameTail(s, lo, t, at, hi - lo, 1);
  }

  lemma NameSame(s: string, lo: nat, hi: nat, t: string, at: nat, to: nat)
    requires Within(s, lo, hi) && Within(t, at, to) && hi - lo == to - at && Same(s, lo, t, at, hi - lo)
    ensures var e, e' := End(s, lo, hi), End(t, at, to);
            s[lo..e] == t[at..e'] && hi - e == to - e' && Same(s, e, t, e', hi - e)
  {
    EndSame(s, lo, t, at, hi - lo);
    NameAlike(s, lo, hi, t, at, to, End(s, lo, hi), End(t, at, to));
  }

  lemma NameAlike(s: string, lo: nat, hi: nat, t: string, at: nat, to: nat, e: nat, e': nat)
    requires lo <= e <= hi && at <= e' <= to && hi - lo == to - at && Same(s, lo, t, at, hi - lo) && e - lo == e' - at
    ensures s[lo..e] == t[at..e'] && hi - e == to - e' && Same(s, e, t, e', hi - e)
  {
    SameTail(s, lo, t, at, hi - lo, e - lo);
  }

  /** Only the characters of the part matter. */
  lemma {:induction false} PiecesAlike(s: string, lo: nat, hi: nat, t: string, at: nat, to: nat)
    requires Within(s, lo, hi) && Within(t, at, to) && hi - lo == to - at && Same(s, lo, t, at, hi - lo)
    ensures Pieces(s, lo, hi) == Pieces(t, at, to)
    decreases hi - lo
  {
    if lo < hi {
      SlashSame(s, lo, hi, t, at, to);
      if s[lo] == '/' {
        PiecesAlike(s, lo + 1, hi, t, at + 1, to);
      } else {
        NameSame(s, lo, hi, t, at, to);
        PiecesAlike(s, End(s, lo, hi), hi, t, End(t, at, to), to);
      }
    }
  }

  /** What joining two texts with a slash does to the pieces. */
  lemma PiecesJoin(a: string, m: nat, b: string, s: string)
    requires m == |a| && |s| == m + 1 + |b| && Same(s, 0, a, 0, m) && s[m] == '/' && Same(s, m + 1, b, 0, |b|)
    ensures Pieces(s, 0, |s|) == Pieces(a, 0, |a|) + Pieces(b, 0, |b|)
  {
    var n := |s|;
    PiecesAlike(s, 0, m, a, 0, m);
    PiecesAlike(s, m + 1, n, b, 0, |b|);
    PiecesSplit(s, 0, m, n);
  }

  // ---------------------------------------------------------------- canonical, join

  /** Every run of slashes made one. */
  function Collapse(s: string): string {
    if s == [] then []
    else if |s| > 1 && s[0] == '/' && s[1] == '/' then Collapse(s[1..])
    else [s[0]] + Collapse(s[1..])
  }

  function Canonical(s: string): string {
    if TwoSlashes(s) then ['/'] + Collapse(s) else Collapse(s)
  }

  lemma {:induction false} CollapseStart(s: string)
    requires s != []
    ensures Collapse(s) != [] && Collapse(s)[0] == s[0]
    ensures |Collapse(s)| > 1 && s[0] == '/' ==> Collapse(s)[1] != '/'
  {
    if |s| > 1 && s[0] == '/' && s[1] == '/' {
      CollapseStart(s[1..]);
    } else if |s| > 1 {
      CollapseStart(s[1..]);
    }
  }

  /** Collapsing what follows the start of a piece changes no piece. */
  lemma {:induction false} CollapsePieces(a: string, s: string)
    ensures AllPieces(a + Collapse(s)) == AllPieces(a + s)
    decreases |s|
  {
    if s == [] {
    } else if s[0] != '/' {
      CollapsePieces(a + [s[0]], s[1..]);
      Shift(a, s, s);
      Shift(a, s, Collapse(s));
    } else if |s| > 1 && s[1] == '/' {
      CollapsePieces(a, s[1..]);
      SlashRun(a, s);
    } else {
      CollapsePieces([], s[1..]);
      assert [] + Collapse(s[1..]) == Collapse(s[1..]) && [] + s[1..] == s[1..];
      AfterSlash(a, s);
      AfterSlash(a, Collapse(s));
    }
  }

  lemma AfterSlash(a: string, t: string)
    requires t != [] && t[0] == '/'
    ensures AllPieces(a + t) == AllPieces(a) + AllPieces(t[1..])
  {
    PiecesJoin(a, |a|, t[1..], a + t);
  }

  lemma SlashRun(a: string, s: string)
    requires |s| > 1 && s[0] == '/' && s[1] == '/'
    ensures AllPieces(a + s) == AllPieces(a + s[1..])
  {
    var t := s[1..];
    AfterSlash(a, s);
    AfterSlash(a, t);
    AfterSlash([], t);
    assert [] + t == t;
  }

  lemma Shift(a: string, s: string, t: string)
    requires s != [] && t != [] && t[0] == s[0]
    ensures a + [s[0]] + t[1..] == a + t
  {
  }

  lemma {:induction false} CollapseTwice(s: string)
    ensures Collapse(Collapse(s)) == Collapse(s)
  {
    if s != [] {
      CollapseTwice(s[1..]);
      CollapseStart(s);
    }
  }

  /** A canonical path has the components of the path, and is its own canonical path. */
  lemma CanonicalKeeps(s: string)
    requires s != []
    ensures ComponentsOf(Canonical(s)) == ComponentsOf(s)
    ensures Canonical(Canonical(s)) == Canonical(s)
  {
    CollapseStart(s);
    CollapsePieces([], s);
    CollapseTwice(s);
    assert [] + Collapse(s) == Collapse(s) && [] + s == s;
    if TwoSlashes(s) {
      var c := ['/'] + Collapse(s);
      assert c[1..] == Collapse(s);
      PiecesJoin([], 0, Collapse(s), c);
    }
  }

  /** The text of a component. */
  function Text(c: Component): string {
    match c
    case RootDir => "/"
    case DoubleSlashRootDir => "//"
    case CurDir => "."
    case ParentDir => ".."
    case Normal(name) => name
  }

  predicate EndsInSlash(s: string) { s != [] && s[|s| - 1] == '/' }

  /** The texts of the components with single slashes between them, and one at the end if
      asked for. */
  function Spelled(cs: seq<Component>, trail: bool): string {
    if cs == [] then ""
    else if |cs| > 1 then Text(cs[0]) + ("/" + Spelled(cs[1..], trail))
    else if trail then Text(cs[0]) + "/"
    else Text(cs[0])
  }

  /** The text of a whole path. */
  function Render(cs: seq<Component>, trail: bool): string {
    if cs != [] && (cs[0].RootDir? || cs[0].DoubleSlashRootDir?) then Text(cs[0]) + Spelled(cs[1..], trail)
    else Spelled(cs, trail)
  }

  lemma TextIs(name: string)
    ensures Text(Classify(name)) == name
  {
  }

  lemma {:induction false} CollapseName(s: string, e: nat)
    requires e <= |s| && forall i :: 0 <= i < e ==> s[i] != '/'
    ensures Collapse(s) == s[..e] + Collapse(s[e..])
    decreases e
  {
    if e > 0 {
      CollapseName(s[1..], e - 1);
      assert s[1..][e - 1..] == s[e..] && [s[0]] + s[1..][..e - 1] == s[..e];
    } else {
      assert s[0..] == s;
    }
  }

  lemma {:induction false} EndIsFirst(s: string, lo: nat, hi: nat)
    requires Within(s, lo, hi)
    ensures forall i :: lo <= i < End(s, lo, hi) ==> s[i] != '/'
    decreases hi - lo
  {
    if lo < hi && s[lo] != '/' {
      EndIsFirst(s, lo + 1, hi);
    }
  }

  /** The pieces of the rest of a text. */
  lemma PiecesFrom(s: string, e: nat)
    requires e <= |s|
    ensures AllPieces(s[e..]) == Pieces(s, e, |s|)
  {
    PiecesAlike(s, e, |s|, s[e..], 0, |s| - e);
  }

  lemma {:induction false} OnlySlashes(s: string, lo: nat, hi: nat)
    requires Within(s, lo, hi) && Pieces(s, lo, hi) == []
    ensures forall i :: lo <= i < hi ==> s[i] == '/'
    decreases hi - lo
  {
    if lo < hi {
      OnlySlashes(s, lo + 1, hi);
    }
  }

  /** Collapsing the slashes spells out the pieces. */
  lemma {:induction false} CollapseSpells(s: string)
    ensures Collapse(s) == if IsAbsolute(s) then "/" + Spelled(AllPieces(s), EndsInSlash(s))
                           else Spelled(AllPieces(s), EndsInSlash(s))
    decreases |s|
  {
    if s != [] {
      if s[0] == '/' {
        CollapseSpells(s[1..]);
        PiecesFrom(s, 1);
      } else {
        var e := End(s, 0, |s|);
        EndIsFirst(s, 0, |s|);
        CollapseSpells(s[e..]);
        PiecesFrom(s, e);
        SpellsName(s, e, s[..e], s[e..], AllPieces(s[e..]));
      }
    }
  }

  /** A piece, and the text behind it, which is empty or starts with a slash. */
  lemma SpellsName(s: string, e: nat, name: string, rest: string, cs: seq<Component>)
    requires 0 < e <= |s| && name == s[..e] && rest == s[e..] && (rest != [] ==> rest[0] == '/')
    requires (forall i :: 0 <= i < e ==> s[i] != '/') && cs == AllPieces(rest)
    requires Collapse(rest) == if rest == [] then "" else "/" + Spelled(cs, EndsInSlash(rest))
    ensures Collapse(s) == Spelled([Classify(name)] + cs, EndsInSlash(s))
  {
    CollapseName(s, e);
    TextIs(name);
    var all := [Classify(name)] + cs;
    assert all[1..] == cs;
    if rest == [] {
      assert name + [] == name;
    } else if cs == [] {
      OnlySlashes(rest, 0, |rest|);
      assert "/" + Spelled(cs, true) == "/";
    }
  }

  lemma {:induction false} PiecesNoRoot(s: string, lo: nat, hi: nat)
    requires Within(s, lo, hi)
    ensures forall i :: 0 <= i < |Pieces(s, lo, hi)| ==>
              !Pieces(s, lo, hi)[i].RootDir? && !Pieces(s, lo, hi)[i].DoubleSlashRootDir?
    decreases hi - lo
  {
    if lo < hi {
      PiecesNoRoot(s, if s[lo] == '/' then lo + 1 else End(s, lo, hi), hi);
    }
  }

  /** The canonical path is the text of the components, with a slash at the end if the path
      had one. */
  lemma CanonicalSpells(s: string)
    requires s != []
    ensures Canonical(s) == Render(ComponentsOf(s), EndsInSlash(s))
  {
    CollapseSpells(s);
    PiecesNoRoot(s, 0, |s|);
    Spelling(s, Root(s), AllPieces(s), EndsInSlash(s), Spelled(AllPieces(s), EndsInSlash(s)));
  }

  lemma Spelling(s: string, root: seq<Component>, pieces: seq<Component>, trail: bool, text: string)
    requires s != [] && root == Root(s) && text == Spelled(pieces, trail)
    requires pieces != [] ==> !pieces[0].RootDir? && !pieces[0].DoubleSlashRootDir?
    requires Collapse(s) == if IsAbsolute(s) then "/" + text else text
    ensures Canonical(s) == Render(root + pieces, trail)
  {
    if IsAbsolute(s) {
      assert (root + pieces)[1..] == pieces;
      assert "/" + ("/" + text) == "//" + text;
    } else {
      assert root + pieces == pieces;
    }
  }

  /** Paths with the same components that agree on ending in a slash have the same canonical
      path. */
  lemma CanonicalUnique(s: string, t: string)
    requires s != [] && t != [] && ComponentsOf(s) == ComponentsOf(t) && EndsInSlash(s) == EndsInSlash(t)
    ensures Canonical(s) == Canonical(t)
  {
    CanonicalSpells(s);
    CanonicalSpells(t);
  }

  lemma {:induction false} CollapsedSingly(s: string)
    ensures forall i :: 0 <= i < |Collapse(s)| - 1 ==> !(Collapse(s)[i] == '/' && Collapse(s)[i + 1] == '/')
    ensures EndsInSlash(Collapse(s)) <==> EndsInSlash(s)
    decreases |s|
  {
    if s != [] {
      CollapsedSingly(s[1..]);
      CollapseStart(s);
      if |s| > 1 {
        CollapseStart(s[1..]);
      }
    }
  }

  /** A canonical path has no two neighbouring slashes, apart from the first two characters,
      and there exactly when the path starts with two slashes and not a third. */
  lemma CanonicalSlashes(s: string)
    requires s != []
    ensures forall i :: 0 < i < |Canonical(s)| - 1 ==> !(Canonical(s)[i] == '/' && Canonical(s)[i + 1] == '/')
    ensures |Canonical(s)| > 1 && Canonical(s)[0] == '/' && Canonical(s)[1] == '/' <==>
            |s| > 1 && s[0] == '/' && s[1] == '/' && (|s| > 2 ==> s[2] != '/')
    ensures EndsInSlash(Canonical(s)) <==> EndsInSlash(s)
  {
    CollapsedSingly(s);
    CollapseStart(s);
  }

  function Join(a: string, b: string): string
    requires a != []
  {
    if IsAbsolute(b) then b else if a[|a| - 1] == '/' then a + b else a + ['/'] + b
  }

  lemma JoinPieces(a: string, b: string)
    requires a != [] && !IsAbsolute(b)
    ensures Pieces(Join(a, b), 0, |Join(a, b)|) == Pieces(a, 0, |a|) + Pieces(b, 0, |b|)
  {
    if a[|a| - 1] == '/' {
      var front := a[..|a| - 1];
      PiecesJoin(front, |front|, b, a + b);
      PiecesJoin(front, |front|, [], a);
    } else {
      PiecesJoin(a, |a|, b, a + ['/'] + b);
    }
  }

  /** Joining concatenates the components, unless the second path is absolute. */
  lemma JoinConcatenates(a: string, b: string)
    requires a != [] && b != []
    ensures IsAbsolute(b) ==> ComponentsOf(Join(a, b)) == ComponentsOf(b)
    ensures !IsAbsolute(b) ==> ComponentsOf(Join(a, b)) == ComponentsOf(a) + ComponentsOf(b)
  {
    if !IsAbsolute(b) {
      JoinPieces(a, b);
      assert Root(Join(a, b)) == Root(a) && Root(b) == [];
      Assoc(Root(a), Pieces(a, 0, |a|), Pieces(b, 0, |b|));
      assert [] + Pieces(b, 0, |b|) == Pieces(b, 0, |b|);
    }
  }

  // ---------------------------------------------------------------- parsing from either end

  /** Where the last piece before `hi` starts: after a slash, or at `lo`. */
  function LastStart(s: string, lo: nat, hi: nat): (i: nat)
    requires Within(s, lo, hi)
    ensures lo <= i <= hi && (lo < i ==> s[i - 1] == '/')
  {
    if lo == hi || s[hi - 1] == '/' then hi else LastStart(s, lo, hi - 1)
  }

  lemma {:induction false} EndExtends(s: string, lo: nat, hi: nat)
    requires Within(s, lo, hi) && hi < |s| && End(s, lo, hi) == hi && s[hi] != '/'
    ensures End(s, lo, hi + 1) == hi + 1
    decreases hi - lo
  {
    if lo < hi {
      EndExtends(s, lo + 1, hi);
    }
  }

  /** From there to `hi` there is no slash. */
  lemma {:induction false} LastEnds(s: string, lo: nat, hi: nat)
    requires Within(s, lo, hi)
    ensures End(s, LastStart(s, lo, hi), hi) == hi
  {
    if lo < hi && s[hi - 1] != '/' {
      LastEnds(s, lo, hi - 1);
      EndExtends(s, LastStart(s, lo, hi), hi - 1);
    }
  }

  function FromStr(name: string): Option<Component> {
    if |name| == 0 then None
    else if Single(name, '/') then Some(RootDir)
    else if Double(name, '/') then Some(DoubleSlashRootDir)
    else if Single(name, '.') then Some(CurDir)
    else if Double(name, '.') then Some(ParentDir)
    else Some(Normal(name))
  }

  function AsList(c: Option<Component>): seq<Component> {
    if c.None? then [] else [c.value]
  }

  /** Parses a component from the left; also how many characters to remove with it. */
  function ParseNext(s: string, lo: nat, hi: nat): (nat, Option<Component>)
    requires Within(s, lo, hi)
  {
    var e := End(s, lo, hi);
    (if e == hi then hi - lo else e - lo + 1, FromStr(s[lo..e]))
  }

  function ParseNextBack(s: string, lo: nat, hi: nat): (nat, Option<Component>)
    requires Within(s, lo, hi)
  {
    var i := LastStart(s, lo, hi);
    (if i == lo then hi - lo else hi - i + 1, FromStr(s[i..hi]))
  }

  lemma ParseNextTakes(s: string, lo: nat, hi: nat)
    requires Within(s, lo, hi) && lo < hi
    ensures var (size, c) := ParseNext(s, lo, hi);
            && 0 < size <= hi - lo && Pieces(s, lo, hi) == AsList(c) + Pieces(s, lo + size, hi)
            && (c.Some? <==> s[lo] != '/')
  {
  }

  lemma ParseNextBackTakes(s: string, lo: nat, hi: nat)
    requires Within(s, lo, hi) && lo < hi
    ensures var (size, c) := ParseNextBack(s, lo, hi);
            && 0 < size <= hi - lo && Pieces(s, lo, hi) == Pieces(s, lo, hi - size) + AsList(c)
            && (c.Some? <==> s[hi - 1] != '/')
  {
    var i := LastStart(s, lo, hi);
    LastEnds(s, lo, hi);
    assert Pieces(s, i, hi) == AsList(FromStr(s[i..hi]));
    if i > lo {
      PiecesSplit(s, lo, i - 1, hi);
    }
  }

  // ---------------------------------------------------------------- the two cursors

  /** How much of the text the start component takes up while it is not consumed. */
  function StartLen(startDir: Option<Component>, front: State): nat {
    if front != StartDir || startDir.None? then 0 else if startDir.value == DoubleSlashRootDir then 2 else 1
  }

  /** The first `hi` characters still begin as their start component says. */
  predicate StartOk(s: string, hi: nat, startDir: Option<Component>)
    requires 0 < hi <= |s|
  {
    match startDir
    case None => s[0] != '/'
    case Some(RootDir) => s[0] == '/' && (hi > 2 && s[1] == '/' ==> s[2] == '/')
    case Some(DoubleSlashRootDir) => hi >= 2 && s[0] == '/' && s[1] == '/' && (hi > 2 ==> s[2] != '/')
    case Some(CurDir) => s[0] == '.' && (hi > 1 ==> s[1] == '/')
    case Some(_) => false
  }

  /** The list is the pieces of a part of the text. */
  ghost predicate PiecesAre(x: seq<Component>, s: string, lo: nat, hi: nat)
    requires Within(s, lo, hi)
  {
    forall i {:trigger At(i)} :: At(i) ==> x == Pieces(s, lo, hi)
  }

  /** Reading the text afresh gives its start component and the pieces after it. */
  lemma Reread(s: string, startDir: Option<Component>)
    requires s != [] && StartOk(s, |s|, startDir) && (startDir == Some(RootDir) ==> !TwoSlashes(s))
    ensures ComponentsOf(s) == AsList(startDir) + Pieces(s, StartLen(startDir, StartDir), |s|)
  {
    match startDir
    case None =>
    case Some(RootDir) =>
      LeadingSlash(s, 0, |s|);
    case Some(DoubleSlashRootDir) =>
      LeadingSlash(s, 0, |s|);
      LeadingSlash(s, 1, |s|);
    case Some(CurDir) =>
      LeadingDot(s, 0, |s|);
  }

  lemma LeadingSlash(s: string, lo: nat, hi: nat)
    requires Within(s, lo, hi) && lo < hi && s[lo] == '/'
    ensures Pieces(s, lo, hi) == Pieces(s, lo + 1, hi)
  {
  }

  lemma LeadingDot(s: string, lo: nat, hi: nat)
    requires Within(s, lo, hi) && lo < hi && s[lo] == '.' && (lo + 1 < hi ==> s[lo + 1] == '/')
    ensures Pieces(s, lo, hi) == [CurDir] + Pieces(s, lo + 1, hi)
  {
    assert End(s, lo, hi) == End(s, lo + 1, hi) == lo + 1;
  }

  lemma NoPieces(x: seq<Component>, s: string, lo: nat)
    requires lo <= |s| && PiecesAre(x, s, lo, lo)
    ensures x == []
  {
    assert At(0);
  }

  lemma SomePiece(x: seq<Component>, s: string, lo: nat, hi: nat)
    requires Within(s, lo, hi) && lo < hi && s[lo] != '/' && PiecesAre(x, s, lo, hi)
    ensures x != []
  {
    assert At(0);
  }

  /** Parsing from the front takes the first piece off the list. */
  lemma PiecesFront(x: seq<Component>, s: string, lo: nat, hi: nat)
    requires Within(s, lo, hi) && lo < hi && PiecesAre(x, s, lo, hi)
    ensures var (size, c) := ParseNext(s, lo, hi);
            && 0 < size <= hi - lo && (c.Some? <==> s[lo] != '/')
            && AsList(c) <= x && PiecesAre(x[|AsList(c)|..], s, lo + size, hi)
  {
    assert At(0);
    ParseNextTakes(s, lo, hi);
  }

  /** Parsing from the back takes the last piece off the list. */
  lemma PiecesBack(x: seq<Component>, s: string, lo: nat, hi: nat)
    requires Within(s, lo, hi) && lo < hi && PiecesAre(x, s, lo, hi)
    ensures var (size, c) := ParseNextBack(s, lo, hi);
            && 0 < size <= hi - lo && (c.Some? <==> s[hi - 1] != '/') && |AsList(c)| <= |x|
            && x == x[..|x| - |AsList(c)|] + AsList(c) && PiecesAre(x[..|x| - |AsList(c)|], s, lo, hi - size)
  {
    assert At(0);
    ParseNextBackTakes(s, lo, hi);
  }

  lemma {:induction false} NoRootInside(s: string, lo: nat, hi: nat)
    requires Within(s, lo, hi)
    ensures forall i :: 0 <= i < |Pieces(s, lo, hi)| ==>
              Pieces(s, lo, hi)[i] != RootDir && Pieces(s, lo, hi)[i] != DoubleSlashRootDir
    decreases hi - lo
  {
    if lo < hi {
      NoRootInside(s, if s[lo] == '/' then lo + 1 else End(s, lo, hi), hi);
    }
  }

  /** There always is a component, and only the first can be a root. */
  lemma RootFirst(s: string, i: nat)
    requires s != []
    ensures |ComponentsOf(s)| > 0
    ensures 0 < i < |ComponentsOf(s)| ==> ComponentsOf(s)[i] != RootDir && ComponentsOf(s)[i] != DoubleSlashRootDir
  {
    NoRootInside(s, 0, |s|);
    if 0 < i < |ComponentsOf(s)| {
      assert ComponentsOf(s)[i] == AllPieces(s)[i - |Root(s)|];
    }
  }

  /** Reading a copy of the part between the cursors gives the components that are left. */
  lemma RereadPart(x: seq<Component>, s: string, lo: nat, b: nat, hi: nat, startDir: Option<Component>, front: State)
    requires Within(s, lo, hi) && lo < hi && b == lo + StartLen(startDir, front) <= hi && PiecesAre(x, s, b, hi)
    requires front == StartDir ==>
               lo == 0 && StartOk(s, hi, startDir) && (startDir == Some(RootDir) ==> hi == 1 || s[hi - 1] != '/')
    requires front == Body ==> s[lo] != '/'
    requires front != Done
    ensures ComponentsOf(s[lo..hi]) == (if front == StartDir then AsList(startDir) else []) + x
  {
    var p := s[lo..hi];
    assert At(0);
    PiecesAlike(s, b, hi, p, b - lo, |p|);
    if front == StartDir {
      Reread(p, startDir);
    }
  }

  class Components {
    /** The path left to parse is the part of the text between `lo` and `hi`. */
    const text: string
    var lo: nat
    var hi: nat
    var startDir: Option<Component>
    var front: State
    var back: State

    /** The components of the part after the start component. */
    ghost var body: seq<Component>

    ghost predicate Valid()
      reads this
    {
      && Within(text, lo, hi) && front != Done && back != Done && (back == StartDir ==> lo == hi)
      && (front == StartDir && lo < hi ==> lo == 0 && StartOk(text, hi, startDir))
      && (lo == hi ==> body == []) && (lo < hi ==> BodyOk())
    }

    ghost predicate BodyOk()
      reads this
    {
      && 0 <= lo && lo + StartLen(startDir, front) <= hi <= |text|
      && PiecesAre(body, text, lo + StartLen(startDir, front), hi)
    }

    /** The components not yet yielded. */
    ghost function Remaining(): seq<Component>
      reads this
    {
      (if front == StartDir && lo < hi then AsList(startDir) else []) + body
    }

    constructor (path: string)
      requires path != []
      ensures Valid() && Remaining() == ComponentsOf(path) && front == StartDir
    {
      var start := None;
      if TwoSlashes(path) {
        start := Some(DoubleSlashRootDir);
      } else if IsAbsolute(path) {
        start := Some(RootDir);
      } else if path[0] == '.' && (|path| == 1 || path[1] == '/') {
        start := Some(CurDir);
      }
      text, lo, hi := path, 0, |path|;
      startDir, front, back := start, StartDir, Body;
      body := Pieces(path, StartLen(start, StartDir), |path|);
      Reread(path, start);
    }

    constructor Clone(c: Components)
      ensures text == c.text && lo == c.lo && hi == c.hi && body == c.body
      ensures startDir == c.startDir && front == c.front && back == c.back
    {
      text, lo, hi, body := c.text, c.lo, c.hi, c.body;
      startDir, front, back := c.startDir, c.front, c.back;
    }

    predicate IsFinished()
      reads this
    {
      front == Done || back == Done || lo == hi
    }

    function LenBeforeBody(): nat
      reads this
    {
      StartLen(startDir, front)
    }

    /** Yields the first component that is left, and takes it off the list. */
    method Next() returns (r: Option<Component>)
      requires Valid()
      modifies this`lo, this`front, this`body
      ensures Valid() && (r.None? <==> old(Remaining()) == [])
      ensures old(Remaining()) == AsList(r) + Remaining()
    {
      while !IsFinished()
        invariant Valid() && Remaining() == old(Remaining())
        decreases hi - lo + if front == StartDir then 1 else 0
      {
        match front
        case StartDir =>
          r := DropStart();
          if r.Some? {
            return;
          }
        case Body =>
          r := DropFront();
          if r.Some? {
            return;
          }
      }
      r := None;
    }

    /** Passes the start of the path. */
    method DropStart() returns (c: Option<Component>)
      requires Valid() && front == StartDir && lo < hi
      modifies this`lo, this`front, this`body
      ensures Valid() && front == Body && old(lo) <= lo
      ensures c == startDir && old(Remaining()) == AsList(c) + Remaining()
    {
      front := Body;
      if startDir == Some(DoubleSlashRootDir) {
        lo := lo + 2;
      } else if startDir == Some(RootDir) {
        lo := lo + 1;
      } else if startDir == Some(CurDir) {
        lo := lo + 1;
      }
      if lo == hi {
        NoPieces(body, text, lo);
      }
      c := startDir;
    }

    /** Takes one component, or one slash, off the front. */
    method DropFront() returns (c: Option<Component>)
      requires Valid() && front == Body && lo < hi
      modifies this`lo, this`body
      ensures Valid() && old(lo) < lo && old(Remaining()) == AsList(c) + Remaining()
    {
      PiecesFront(body, text, lo, hi);
      var (size, piece) := ParseNext(text, lo, hi);
      Advance(size, AsList(piece));
      c := piece;
    }

    method Advance(size: nat, ghost first: seq<Component>)
      requires Valid() && front == Body && 0 < size <= hi - lo && first <= body
      requires PiecesAre(body[|first|..], text, lo + size, hi)
      modifies this`lo, this`body
      ensures Valid() && lo == old(lo) + size && old(Remaining()) == first + Remaining()
    {
      body := body[|first|..];
      lo := lo + size;
      if lo == hi {
        NoPieces(body, text, lo);
      }
    }

    /** Yields the last component that is left, and takes it off the list. */
    method NextBack() returns (r: Option<Component>)
      requires Valid()
      modifies this`lo, this`hi, this`back, this`body
      ensures Valid() && (r.None? <==> old(Remaining()) == [])
      ensures old(Remaining()) == Remaining() + AsList(r)
    {
      while !IsFinished()
        invariant Valid() && Remaining() == old(Remaining())
        decreases hi - lo
      {
        if hi - lo > LenBeforeBody() {
          r := DropBack();
          if r.Some? {
            return;
          }
        } else {
          NoPieces(body, text, hi);
          back := StartDir;
          lo := hi;
          return startDir;
        }
      }
      r := None;
    }

    /** Takes one component, or one slash, off the back of the body. */
    method DropBack() returns (c: Option<Component>)
      requires Valid() && hi - lo > LenBeforeBody()
      modifies this`hi, this`body
      ensures Valid() && lo <= hi < old(hi) && old(Remaining()) == Remaining() + AsList(c)
    {
      var start := lo + StartLen(startDir, front);
      var size;
      size, c := PopPiece(start);
      Shrink(start, size, AsList(c));
    }

    /** Parses a component from the right. */
    method PopPiece(start: nat) returns (size: nat, c: Option<Component>)
      requires Within(text, start, hi) && start < hi && PiecesAre(body, text, start, hi)
      ensures 0 < size <= hi - start && (c.Some? <==> text[hi - 1] != '/') && |AsList(c)| <= |body|
      ensures body == body[..|body| - |AsList(c)|] + AsList(c)
      ensures PiecesAre(body[..|body| - |AsList(c)|], text, start, hi - size)
    {
      PiecesBack(body, text, start, hi);
      var (n, piece) := ParseNextBack(text, start, hi);
      size, c := n, piece;
    }

    method Shrink(ghost start: nat, size: nat, ghost last: seq<Component>)
      requires Valid() && start == lo + StartLen(startDir, front) && 0 < size <= hi - start
      requires |last| <= |body| && body == body[..|body| - |last|] + last
      requires PiecesAre(body[..|body| - |last|], text, start, hi - size)
      modifies this`hi, this`body
      ensures Valid() && hi == old(hi) - size
      ensures old(Remaining()) == Remaining() + last
    {
      Assoc(if front == StartDir then AsList(startDir) else [], body[..|body| - |last|], last);
      body := body[..|body| - |last|];
      hi := hi - size;
      if lo == hi {
        NoPieces(body, text, hi);
      }
    }

    /** Takes repeated slashes off the left. */
    method TrimLeft()
      requires Valid() && front == Body
      modifies this`lo, this`body
      ensures Valid() && Remaining() == old(Remaining()) && (lo < hi ==> text[lo] != '/')
    {
      while lo < hi
        invariant Valid() && Remaining() == old(Remaining())
      {
        PiecesFront(body, text, lo, hi);
        var (size, c) := ParseNext(text, lo, hi);
        if c.Some? {
          return;
        }
        Advance(size, []);
      }
    }

    /** Takes repeated slashes off the right. */
    method TrimRight()
      requires Valid()
      modifies this`hi, this`body
      ensures Valid() && Remaining() == old(Remaining())
      ensures hi - lo > LenBeforeBody() ==> text[hi - 1] != '/'
    {
      while hi - lo > LenBeforeBody()
        invariant Valid() && Remaining() == old(Remaining())
        decreases hi - lo
      {
        var start := lo + StartLen(startDir, front);
        var size, c := PopPiece(start);
        if c.Some? {
          return;
        }
        Shrink(start, size, AsList(c));
      }
    }

    /** A path with exactly the components that are left. */
    method ToPath() returns (path: string)
      requires Valid() && Remaining() != []
      ensures path != [] && ComponentsOf(path) == Remaining()
    {
      var comps := new Components.Clone(this);
      if comps.front == Body {
        comps.TrimLeft();
      }
      if comps.back == Body {
        comps.TrimRight();
      }
      var text, lo, hi := comps.text, comps.lo, comps.hi;
      RereadPart(comps.body, text, lo, lo + comps.LenBeforeBody(), hi, comps.startDir, comps.front);
      path := text[lo..hi];
    }
  }

  /** The path without its last component; there is none exactly when it has only one. */
  method Parent(path: string) returns (r: Option<string>)
    requires path != []
    ensures r.None? <==> |ComponentsOf(path)| == 1
    ensures r.Some? ==> r.value != [] && ComponentsOf(r.value) == ComponentsOf(path)[..|ComponentsOf(path)| - 1]
  {
    var components := new Components(path);
    var last := components.NextBack();
    RootFirst(path, |components.Remaining()|);
    assert last.Some? ==> ComponentsOf(path)[|components.Remaining()|] == last.value;
    if last.None? || last.value == RootDir || last.value == DoubleSlashRootDir {
      return None;
    }
    if components.IsFinished() {
      return None;
    }
    if components.startDir.None? {
      SomePiece(components.body, components.text, components.lo, components.hi);
    }
    var parent := components.ToPath();
    r := Some(parent);
  }

  lemma Regroup(a: seq<Component>, b: seq<Component>, c: seq<Component>, d: seq<Component>)
    ensures a + (b + c) + d == a + b + c + d && a + (b + c) + d == a + b + (c + d)
  {
  }

  /** Any interleaving of the two ends: what the front yielded, what is left and, last
      first, what the back yielded make up the components. */
  method Interleave(path: string, fromBack: seq<bool>)
    returns (fronts: seq<Component>, backs: seq<Component>, ghost left: seq<Component>)
    requires path != []
    ensures ComponentsOf(path) == fronts + left + backs
    ensures |fronts| + |backs| == (if |fromBack| <= |ComponentsOf(path)| then |fromBack| else |ComponentsOf(path)|)
  {
    var c := new Components(path);
    fronts, backs, left := [], [], c.Remaining();
    var i := 0;
    while i < |fromBack|
      invariant 0 <= i <= |fromBack| && c.Valid() && fresh(c) && left == c.Remaining()
      invariant ComponentsOf(path) == fronts + left + backs
      invariant |fronts| + |backs| == (if i <= |ComponentsOf(path)| then i else |ComponentsOf(path)|)
    {
      if fromBack[i] {
        var x := c.NextBack();
        Regroup(fronts, c.Remaining(), AsList(x), backs);
        backs := AsList(x) + backs;
      } else {
        var x := c.Next();
        Regroup(fronts, AsList(x), c.Remaining(), backs);
        fronts := fronts + AsList(x);
      }
      left := c.Remaining();
      i := i + 1;
    }
  }
}
