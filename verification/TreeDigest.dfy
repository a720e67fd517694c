/** The byte stream that the directory digests of the build tools hash: every file and link below the
    directory, in path order, as NUL-terminated fields.  SHA-256 is a function of this stream only. */
module TreeDigest {
  import opened Options

  type Byte = b: int | 0 <= b < 256

  predicate NoNul(s: seq<Byte>) { forall i :: 0 <= i < |s| ==> s[i] != 0 }

  // Paths and link targets cannot contain a NUL byte.
  type Name = s: seq<Byte> | NoNul(s) witness []

  datatype Node = File(content: seq<Byte>) | LinkTo(target: Name) | Directory

  type Tree = map<Name, Node>

  const NUL: seq<Byte> := [0]
  const FILE: Name := [102, 105, 108, 101]
  const SYMLINK: Name := [115, 121, 109, 108, 105, 110, 107]
  const CHUNK := 1024 * 1024

  // ---- path order ----

  predicate Less(a: seq<Byte>, b: seq<Byte>)
    decreases |a|
  {
    b != [] && (a == [] || a[0] < b[0] || (a[0] == b[0] && Less(a[1..], b[1..])))
  }

  /** The order is that of Python's strings: at the first place where two paths differ the smaller byte comes first, and
      a path comes before its continuations. */
  lemma {:induction false} LessIff(a: seq<Byte>, b: seq<Byte>)
    ensures Less(a, b) <==> exists k :: DiffersAt(a, b, k)
    decreases |a|
  {
    if a != [] && b != [] && a[0] == b[0] {
      LessIff(a[1..], b[1..]);
      if k :| DiffersAt(a[1..], b[1..], k) {
        assert a[..k + 1] == [a[0]] + a[1..][..k] && b[..k + 1] == [b[0]] + b[1..][..k];
        assert DiffersAt(a, b, k + 1);
      }
      if k :| DiffersAt(a, b, k) {
        assert k > 0 && a[1..][..k - 1] == a[..k][1..] && b[1..][..k - 1] == b[..k][1..];
        assert DiffersAt(a[1..], b[1..], k - 1);
      }
    } else if Less(a, b) {
      assert DiffersAt(a, b, 0);
    } else if k :| DiffersAt(a, b, k) {
      if k > 0 { SameHead(a, b, k); }
    }
  }

  lemma SameHead(a: seq<Byte>, b: seq<Byte>, k: int)
    requires DiffersAt(a, b, k) && k > 0
    ensures a[0] == b[0]
  {
    assert a[..k][0] == b[..k][0];
  }

  predicate DiffersAt(a: seq<Byte>, b: seq<Byte>, k: int) {
    0 <= k <= |a| && k < |b| && a[..k] == b[..k] && (k == |a| || a[k] < b[k])
  }

  lemma {:induction false} LessTotal(a: seq<Byte>, b: seq<Byte>)
    ensures a == b || Less(a, b) || Less(b, a)
    decreases |a|
  {
    if a != [] && b != [] && a[0] == b[0] {
      LessTotal(a[1..], b[1..]);
      if a[1..] == b[1..] { assert a == [a[0]] + a[1..] && b == [b[0]] + b[1..]; }
    }
  }

  lemma {:induction false} LessTransitive(a: seq<Byte>, b: seq<Byte>, c: seq<Byte>)
    requires Less(a, b) && Less(b, c)
    ensures Less(a, c) && a != c
    decreases |a|
  {
    if a != [] && a[0] == b[0] == c[0] {
      LessTransitive(a[1..], b[1..], c[1..]);
    }
  }

  predicate Sorted(ps: seq<Name>) { forall i, j :: 0 <= i < j < |ps| ==> Less(ps[i], ps[j]) }

  lemma {:induction false} Least(s: set<Name>) returns (p: Name)
    requires s != {}
    ensures p in s && forall q :: q in s && q != p ==> Less(p, q)
    decreases |s|
  {
    p :| p in s;
    var rest := s - {p};
    if rest != {} {
      var q := Least(rest);
      LessTotal(p, q);
      if Less(p, q) {
        forall r | r in s && r != p ensures Less(p, r) { if r != q { LessTransitive(p, q, r); } }
      } else {
        forall r | r in s && r != q ensures Less(q, r) { if r != p { assert r in rest; } }
        p := q;
      }
    }
  }

  ghost predicate IsLeast(s: set<Name>, p: Name) { p in s && forall q :: q in s && q != p ==> Less(p, q) }

  lemma LeastExists(s: set<Name>)
    requires s != {}
    ensures exists p :: IsLeast(s, p)
  {
    var p := Least(s);
    assert IsLeast(s, p);
  }

  ghost function SortedNames(s: set<Name>): (ps: seq<Name>)
    ensures forall p :: p in ps <==> p in s
    ensures Sorted(ps)
    decreases |s|
  {
    if s == {} then []
    else
      LeastExists(s);
      var p :| IsLeast(s, p);
      var rest := SortedNames(s - {p});
      assert forall i :: 0 <= i < |rest| ==> rest[i] in s - {p};
      [p] + rest
  }

  lemma HasMember(a: seq<Name>)
    requires a != []
    ensures exists p :: p in a
  {
    assert a[0] in a;
  }

  /** There is only one way to list a set of paths in order, so the order in which the file system reports
      them does not matter. */
  lemma {:induction false} SortedUnique(a: seq<Name>, b: seq<Name>)
    requires Sorted(a) && Sorted(b) && forall p :: p in a <==> p in b
    ensures a == b
    decreases |a|
  {
    if a == [] {
      if b != [] { HasMember(b); }
    } else {
      assert a[0] in b;
      assert b[0] in a;
      if a[0] != b[0] {
        LessTransitive(a[0], b[0], a[0]);
      }
      forall p | p in a[1..] ensures p in b[1..] { Distinct(a, p); assert p in b; }
      forall p | p in b[1..] ensures p in a[1..] { Distinct(b, p); assert p in a; }
      SortedUnique(a[1..], b[1..]);
      assert a == [a[0]] + a[1..] && b == [b[0]] + b[1..];
    }
  }

  lemma Distinct(a: seq<Name>, p: Name)
    requires Sorted(a) && a != [] && p in a[1..]
    ensures p != a[0]
  {
    var i :| 0 <= i < |a[1..]| && a[1..][i] == p;
    assert Less(a[0], a[i + 1]);
    if p == a[0] { LessTransitive(p, p, p); }
  }

  // ---- the stream ----

  // A NUL-terminated field in front of `rest`.
  function Then(field: seq<Byte>, rest: seq<Byte>): seq<Byte> { field + NUL + rest }

  // One path's contribution in front of `rest`.
  function Encode(p: Name, n: Node, rest: seq<Byte>): seq<Byte> {
    match n
    case File(content) => Then(FILE, Then(p, Then(content, rest)))
    case LinkTo(target) => Then(SYMLINK, Then(p, Then(target, rest)))
    case Directory => rest
  }

  function EncodeAll(t: Tree, ps: seq<Name>): seq<Byte>
    requires forall p :: p in ps ==> p in t
  {
    if ps == [] then [] else Encode(ps[0], t[ps[0]], EncodeAll(t, ps[1..]))
  }

  ghost function Stream(t: Tree): seq<Byte> { EncodeAll(t, SortedNames(t.Keys)) }

  // The tree up to its directories, which leave no trace.
  function Visible(t: Tree): Tree { map p | p in t && !t[p].Directory? :: t[p] }

  predicate Clean(t: Tree) { forall p :: p in t && t[p].File? ==> NoNul(t[p].content) }

  // ---- the reader ----

  function NulAt(s: seq<Byte>): (n: nat)
    ensures n <= |s| && NoNul(s[..n]) && (n < |s| ==> s[n] == 0)
  {
    if s == [] || s[0] == 0 then 0
    else
      var n := NulAt(s[1..]);
      assert s[..n + 1] == [s[0]] + s[1..][..n];
      n + 1
  }

  // The first NUL-terminated field and what follows it.
  function Field(s: seq<Byte>): (r: Option<(Name, seq<Byte>)>)
    ensures r.Some? ==> |r.value.1| < |s|
  {
    var n := NulAt(s);
    if n == |s| then None else Some((s[..n], s[n + 1..]))
  }

  // The first entry and what follows it.
  function Entry(s: seq<Byte>): (r: Option<(Name, Node, seq<Byte>)>)
    ensures r.Some? ==> |r.value.2| < |s|
  {
    var tag := Field(s);
    if tag.None? || (tag.value.0 != FILE && tag.value.0 != SYMLINK) then None else
    var path := Field(tag.value.1);
    if path.None? then None else
    var body := Field(path.value.1);
    if body.None? then None
    else Some((path.value.0, if tag.value.0 == FILE then File(body.value.0) else LinkTo(body.value.0), body.value.1))
  }

  function Decode(s: seq<Byte>): Option<Tree>
    decreases |s|
  {
    if s == [] then Some(map[])
    else
      var e := Entry(s);
      if e.None? then None else
      var rest := Decode(e.value.2);
      if rest.None? then None else Some(rest.value[e.value.0 := e.value.1])
  }

  lemma {:induction false} NulAtConcat(a: Name, b: seq<Byte>)
    ensures NulAt(a + NUL + b) == |a|
    decreases |a|
  {
    var s := a + NUL + b;
    if a != [] {
      assert a[0] != 0;
      assert NoNul(a[1..]);
      assert s[1..] == a[1..] + NUL + b;
      NulAtConcat(a[1..], b);
    }
  }

  lemma FieldThen(a: Name, b: seq<Byte>)
    ensures Field(Then(a, b)) == Some((a, b))
  {
    NulAtConcat(a, b);
    var s := Then(a, b);
    assert s[..|a|] == a && s[|a| + 1..] == b;
  }

  lemma EntryThen(p: Name, n: Node, rest: seq<Byte>)
    requires !n.Directory? && (n.File? ==> NoNul(n.content))
    ensures Entry(Encode(p, n, rest)) == Some((p, n, rest))
  {
    var body: Name := if n.File? then n.content else n.target;
    var tag := if n.File? then FILE else SYMLINK;
    FieldThen(tag, Then(p, Then(body, rest)));
    FieldThen(p, Then(body, rest));
    FieldThen(body, rest);
  }

  // The part of the tree that a list of paths names.
  function Listed(t: Tree, ps: seq<Name>): Tree { map p | p in ps && p in t && !t[p].Directory? :: t[p] }

  lemma ListedCons(t: Tree, ps: seq<Name>)
    requires ps != [] && ps[0] in t
    ensures Listed(t, ps) == if t[ps[0]].Directory? then Listed(t, ps[1..]) else Listed(t, ps[1..])[ps[0] := t[ps[0]]]
  {
    assert forall p :: p in ps <==> p == ps[0] || p in ps[1..];
  }

  lemma DecodeEntry(p: Name, n: Node, rest: seq<Byte>)
    requires !n.Directory? && (n.File? ==> NoNul(n.content)) && Decode(rest).Some?
    ensures Decode(Encode(p, n, rest)) == Some(Decode(rest).value[p := n])
  {
    EntryThen(p, n, rest);
  }

  lemma {:induction false} DecodeAll(t: Tree, ps: seq<Name>)
    requires Clean(t) && forall p :: p in ps ==> p in t
    ensures Decode(EncodeAll(t, ps)) == Some(Listed(t, ps))
    decreases |ps|
  {
    if ps == [] {
      assert Listed(t, ps) == map[];
    } else {
      DecodeAll(t, ps[1..]);
      ListedCons(t, ps);
      if !t[ps[0]].Directory? { DecodeEntry(ps[0], t[ps[0]], EncodeAll(t, ps[1..])); }
    }
  }

  /** Reading the stream back gives the tree, up to its directories, whenever no file contains a NUL byte. */
  lemma StreamRoundTrip(t: Tree)
    requires Clean(t)
    ensures Decode(Stream(t)) == Some(Visible(t))
  {
    DecodeAll(t, SortedNames(t.Keys));
    assert Listed(t, SortedNames(t.Keys)) == Visible(t);
  }

  // ---- which trees share a stream ----

  lemma {:induction false} SkipDirectories(t: Tree, ps: seq<Name>)
    requires forall p :: p in ps ==> p in t
    ensures EncodeAll(t, ps) == EncodeAll(t, Shown(t, ps))
    decreases |ps|
  {
    if ps != [] { SkipDirectories(t, ps[1..]); }
  }

  // The listed paths that are not directories.
  function Shown(t: Tree, ps: seq<Name>): (r: seq<Name>)
    requires forall p :: p in ps ==> p in t
    ensures forall p :: p in r <==> p in ps && !t[p].Directory?
    ensures Sorted(ps) ==> Sorted(r)
  {
    if ps == [] then []
    else if t[ps[0]].Directory? then Shown(t, ps[1..])
    else
      var rest := Shown(t, ps[1..]);
      assert forall i :: 0 <= i < |rest| ==> rest[i] in ps[1..];
      [ps[0]] + rest
  }

  // The paths that leave a trace, in order.
  ghost function Paths(t: Tree): (ps: seq<Name>)
    ensures Sorted(ps) && forall p :: p in ps <==> p in Visible(t)
  {
    Shown(t, SortedNames(t.Keys))
  }

  lemma {:induction false} EncodeSame(t: Tree, u: Tree, ps: seq<Name>)
    requires forall p :: p in ps ==> p in t && p in u && t[p] == u[p]
    ensures EncodeAll(t, ps) == EncodeAll(u, ps)
    decreases |ps|
  {
    if ps != [] { EncodeSame(t, u, ps[1..]); }
  }

  lemma StreamIsPaths(t: Tree)
    ensures Stream(t) == EncodeAll(Visible(t), Paths(t))
  {
    SkipDirectories(t, SortedNames(t.Keys));
    EncodeSame(t, Visible(t), Paths(t));
  }

  /** For trees without NUL bytes in their files the stream, hence the digest input, identifies the tree up to
      its directories, in both directions. */
  lemma SameStreamIffSameTree(t: Tree, u: Tree)
    requires Clean(t) && Clean(u)
    ensures Stream(t) == Stream(u) <==> Visible(t) == Visible(u)
  {
    StreamRoundTrip(t);
    StreamRoundTrip(u);
    if Visible(t) == Visible(u) {
      StreamIsPaths(t);
      StreamIsPaths(u);
      SortedUnique(Paths(t), Paths(u));
    }
  }

  // ---- what happens without that restriction ----

  predicate AllShown(t: Tree, ps: seq<Name>) { forall p :: p in ps ==> p in t && !t[p].Directory? }

  lemma EncodeEnds(p: Name, n: Node, rest: seq<Byte>)
    requires !n.Directory? && (rest == [] || rest[|rest| - 1] == 0)
    ensures var s := Encode(p, n, rest); s != [] && s[|s| - 1] == 0
  { }

  lemma {:induction false} EndsWithNul(t: Tree, ps: seq<Name>)
    requires AllShown(t, ps) && ps != []
    ensures var s := EncodeAll(t, ps); s != [] && s[|s| - 1] == 0
    decreases |ps|
  {
    if |ps| > 1 { EndsWithNul(t, ps[1..]); }
    EncodeEnds(ps[0], t[ps[0]], EncodeAll(t, ps[1..]));
  }

  // A content that takes a NUL-terminated tail into itself reads like the two apart.
  lemma Swallowed(c: seq<Byte>, tail: seq<Byte>)
    requires tail != [] && tail[|tail| - 1] == 0
    ensures Then(c, tail) == Then(c + NUL + tail[..|tail| - 1], [])
  {
    assert tail == tail[..|tail| - 1] + NUL;
  }

  // A file followed by other entries: the bytes of all of them can be read as one larger file.
  lemma {:induction false} Swallow(t: Tree, u: Tree, ps: seq<Name>, i: nat)
    requires AllShown(t, ps) && i + 1 < |ps| && t[ps[i]].File?
    requires forall k :: 0 <= k < i ==> ps[k] in u && u[ps[k]] == t[ps[k]]
    requires ps[i] in u
    requires var tail := EncodeAll(t, ps[i + 1..]);
      tail != [] && u[ps[i]] == File(t[ps[i]].content + NUL + tail[..|tail| - 1])
    ensures forall p :: p in ps[..i + 1] ==> p in u
    ensures EncodeAll(u, ps[..i + 1]) == EncodeAll(t, ps)
    decreases i
  {
    assert ps[..i + 1][1..] == ps[1..][..i];
    if i == 0 {
      EndsWithNul(t, ps[1..]);
      Swallowed(t[ps[0]].content, EncodeAll(t, ps[1..]));
      assert EncodeAll(u, ps[..1][1..]) == [];
    } else {
      assert ps[1..][i - 1 + 1..] == ps[i + 1..];
      assert ps[1..][i - 1] == ps[i];
      Swallow(t, u, ps[1..], i - 1);
    }
  }

  predicate FileBeforeEnd(t: Tree, ps: seq<Name>)
    requires AllShown(t, ps)
  {
    exists i :: 0 <= i < |ps| - 1 && t[ps[i]].File?
  }

  function Tag(n: Node): Name
    requires !n.Directory?
  {
    if n.File? then FILE else SYMLINK
  }

  function Body(n: Node): seq<Byte>
    requires !n.Directory?
  {
    if n.File? then n.content else n.target
  }

  lemma HeadUnique(p: Name, n: Node, rest: seq<Byte>, q: Name, m: Node, rest': seq<Byte>)
    requires !n.Directory? && !m.Directory? && Encode(p, n, rest) == Encode(q, m, rest')
    ensures p == q && Tag(n) == Tag(m) && Then(Body(n), rest) == Then(Body(m), rest')
  {
    FieldThen(Tag(n), Then(p, Then(Body(n), rest)));
    FieldThen(Tag(m), Then(q, Then(Body(m), rest')));
    FieldThen(p, Then(Body(n), rest));
    FieldThen(q, Then(Body(m), rest'));
  }

  lemma LinkUnique(a: Name, rest: seq<Byte>, b: Name, rest': seq<Byte>)
    requires Then(a, rest) == Then(b, rest')
    ensures a == b && rest == rest'
  {
    FieldThen(a, rest);
    FieldThen(b, rest');
  }

  // A NUL inside the content, followed by bytes that with the closing NUL are the stream of entries later than `p`.
  ghost predicate HidesEntries(p: Name, content: seq<Byte>) {
    exists i, v: Tree :: 0 <= i < |content| && HidesAt(p, content, i, v)
  }

  ghost predicate HidesAt(p: Name, content: seq<Byte>, i: nat, v: Tree)
    requires i < |content|
  {
    && content[i] == 0 && v != map[] && Visible(v) == v
    && (forall q :: q in v ==> Less(p, q))
    && content[i + 1..] + NUL == Stream(v)
  }

  // Some of a tree's entries as a tree of their own.
  function Part(u: Tree, qs: seq<Name>): Tree
    requires AllShown(u, qs)
  {
    map q | q in qs :: u[q]
  }

  lemma PartStream(u: Tree, qs: seq<Name>)
    requires AllShown(u, qs) && Sorted(qs)
    ensures Visible(Part(u, qs)) == Part(u, qs) && Stream(Part(u, qs)) == EncodeAll(u, qs)
  {
    var v := Part(u, qs);
    assert Visible(v) == v;
    SortedUnique(Paths(v), qs);
    StreamIsPaths(v);
    EncodeSame(v, u, qs);
  }

  // One content read as a shorter one and entries behind it.
  lemma ContentSplits(p: Name, c: seq<Byte>, d: seq<Byte>, u: Tree, qs: seq<Name>)
    requires AllShown(u, qs) && Sorted(qs) && qs != [] && forall q :: q in qs ==> Less(p, q)
    requires Then(c, []) == Then(d, EncodeAll(u, qs))
    ensures HidesEntries(p, c)
  {
    var tail, v, s := EncodeAll(u, qs), Part(u, qs), c + NUL;
    EndsWithNul(u, qs);
    PartStream(u, qs);
    assert s == Then(c, []) == d + NUL + tail;
    assert |d| < |c| && c[|d|] == s[|d|] == 0;
    assert c[|d| + 1..] + NUL == s[|d| + 1..] == tail;
    assert qs[0] in v;
    assert HidesAt(p, c, |d|, v);
  }

  lemma SameContent(c: seq<Byte>, d: seq<Byte>)
    requires Then(c, []) == Then(d, [])
    ensures c == d
  {
    var s := Then(c, []);
    assert c == s[..|c|] == d;
  }

  ghost predicate LastHides(t: Tree, ps: seq<Name>)
    requires AllShown(t, ps)
  {
    ps != [] && t[ps[|ps| - 1]].File? && HidesEntries(ps[|ps| - 1], t[ps[|ps| - 1]].content)
  }

  predicate SameEntries(t: Tree, ps: seq<Name>, u: Tree, qs: seq<Name>)
    requires AllShown(t, ps) && AllShown(u, qs)
  {
    ps == qs && forall p :: p in ps ==> t[p] == u[p]
  }

  lemma EntriesCons(t: Tree, ps: seq<Name>, u: Tree, qs: seq<Name>)
    requires AllShown(t, ps) && AllShown(u, qs) && ps != [] && qs != []
    requires ps[0] == qs[0] && t[ps[0]] == u[qs[0]] && SameEntries(t, ps[1..], u, qs[1..])
    ensures SameEntries(t, ps, u, qs)
  {
    assert ps == [ps[0]] + ps[1..] && qs == [qs[0]] + qs[1..];
  }

  lemma LastLater(t: Tree, ps: seq<Name>)
    requires AllShown(t, ps) && ps != [] && LastHides(t, ps[1..])
    ensures LastHides(t, ps)
  { }

  lemma {:induction false} ReadBack(t: Tree, ps: seq<Name>, u: Tree, qs: seq<Name>)
    requires AllShown(t, ps) && AllShown(u, qs) && Sorted(qs) && !FileBeforeEnd(t, ps)
    requires EncodeAll(t, ps) == EncodeAll(u, qs)
    ensures SameEntries(t, ps, u, qs) || LastHides(t, ps)
    decreases |ps|
  {
    if ps == [] {
      if qs != [] { EndsWithNul(u, qs); }
    } else {
      HeadsAgree(t, ps, u, qs);
      if t[ps[0]].File? {
        ReadBackFile(t, ps, u, qs);
      } else {
        SortedRest(qs);
        NoFileBefore(t, ps);
        ReadBack(t, ps[1..], u, qs[1..]);
        if SameEntries(t, ps[1..], u, qs[1..]) { EntriesCons(t, ps, u, qs); } else { LastLater(t, ps); }
      }
    }
  }

  // Equal streams agree on their first entry: on its path and kind, and for a link on its target and on the rest.
  lemma HeadsAgree(t: Tree, ps: seq<Name>, u: Tree, qs: seq<Name>)
    requires AllShown(t, ps) && AllShown(u, qs) && ps != [] && EncodeAll(t, ps) == EncodeAll(u, qs)
    ensures qs != [] && ps[0] == qs[0] && t[ps[0]].File? == u[qs[0]].File?
    ensures t[ps[0]].File? ==>
      Then(t[ps[0]].content, EncodeAll(t, ps[1..])) == Then(u[qs[0]].content, EncodeAll(u, qs[1..]))
    ensures !t[ps[0]].File? ==> t[ps[0]] == u[qs[0]] && EncodeAll(t, ps[1..]) == EncodeAll(u, qs[1..])
  {
    EndsWithNul(t, ps);
    var n, m := t[ps[0]], u[qs[0]];
    HeadUnique(ps[0], n, EncodeAll(t, ps[1..]), qs[0], m, EncodeAll(u, qs[1..]));
    if !n.File? { LinkUnique(n.target, EncodeAll(t, ps[1..]), m.target, EncodeAll(u, qs[1..])); }
  }

  lemma NoFileBefore(t: Tree, ps: seq<Name>)
    requires AllShown(t, ps) && ps != [] && !FileBeforeEnd(t, ps)
    ensures AllShown(t, ps[1..]) && !FileBeforeEnd(t, ps[1..])
  {
    assert forall i :: 0 <= i < |ps[1..]| - 1 ==> ps[1..][i] == ps[i + 1];
  }

  lemma SortedRest(qs: seq<Name>)
    requires Sorted(qs) && qs != []
    ensures Sorted(qs[1..]) && forall q :: q in qs[1..] ==> Less(qs[0], q)
  {
    forall i | 0 <= i < |qs[1..]| ensures Less(qs[0], qs[1..][i]) { assert Less(qs[0], qs[i + 1]); }
  }

  lemma ReadBackFile(t: Tree, ps: seq<Name>, u: Tree, qs: seq<Name>)
    requires AllShown(t, ps) && AllShown(u, qs) && Sorted(qs) && !FileBeforeEnd(t, ps)
    requires ps != [] && qs != [] && t[ps[0]].File? && ps[0] == qs[0] && u[qs[0]].File?
    requires Then(t[ps[0]].content, EncodeAll(t, ps[1..])) == Then(u[qs[0]].content, EncodeAll(u, qs[1..]))
    ensures SameEntries(t, ps, u, qs) || LastHides(t, ps)
  {
    assert |ps| == 1;
    SortedRest(qs);
    if |qs| == 1 {
      SameContent(t[ps[0]].content, u[qs[0]].content);
      assert ps == [ps[0]] && qs == [qs[0]];
    } else {
      ContentSplits(ps[0], t[ps[0]].content, u[qs[0]].content, u, qs[1..]);
    }
  }

  lemma SortedNoRepeat(ps: seq<Name>, i: nat, j: nat)
    requires Sorted(ps) && i < j < |ps|
    ensures ps[i] != ps[j]
  {
    if ps[i] == ps[j] { LessTransitive(ps[i], ps[j], ps[i]); }
  }

  // `ps[..i + 1]` with the last file grown by `extra`.
  function Grown(v: Tree, ps: seq<Name>, i: nat, content: seq<Byte>): Tree
    requires AllShown(v, ps) && i < |ps|
  {
    (map p | p in ps[..i] :: v[p])[ps[i] := File(content)]
  }

  lemma GrownPaths(v: Tree, ps: seq<Name>, i: nat, content: seq<Byte>)
    requires AllShown(v, ps) && Sorted(ps) && i + 1 < |ps|
    ensures var u := Grown(v, ps, i, content);
      && Visible(u) == u && Paths(u) == ps[..i + 1] && ps[i + 1] !in u
      && (forall k :: 0 <= k < i ==> ps[k] in u && u[ps[k]] == v[ps[k]])
  {
    var u := Grown(v, ps, i, content);
    assert Visible(u) == u;
    forall k | 0 <= k < i ensures ps[k] in u && u[ps[k]] == v[ps[k]] {
      assert ps[k] in ps[..i];
      SortedNoRepeat(ps, k, i);
    }
    assert ps[..i + 1] == ps[..i] + [ps[i]];
    SortedUnique(Paths(u), ps[..i + 1]);
    if ps[i + 1] in u {
      var k :| 0 <= k <= i && ps[k] == ps[i + 1];
      SortedNoRepeat(ps, k, i + 1);
    }
  }

  lemma SwallowWitness(t: Tree, i: nat) returns (u: Tree)
    requires i + 1 < |Paths(t)| && t[Paths(t)[i]].File?
    ensures Stream(u) == Stream(t) && Visible(u) != Visible(t)
  {
    var ps, v := Paths(t), Visible(t);
    EndsWithNul(v, ps[i + 1..]);
    var tail := EncodeAll(v, ps[i + 1..]);
    var content := v[ps[i]].content + NUL + tail[..|tail| - 1];
    u := Grown(v, ps, i, content);
    GrownPaths(v, ps, i, content);
    Swallow(v, u, ps, i);
    StreamIsPaths(u);
    StreamIsPaths(t);
    assert ps[i + 1] in v;
  }

  lemma NotShared(t: Tree, u: Tree)
    requires !FileBeforeEnd(t, Paths(t)) && Stream(u) == Stream(t) && Visible(u) != Visible(t)
    ensures LastHides(t, Paths(t))
  {
    var v, w, ps, qs := Visible(t), Visible(u), Paths(t), Paths(u);
    StreamIsPaths(u);
    StreamIsPaths(t);
    assert !FileBeforeEnd(v, ps);
    ReadBack(v, ps, w, qs);
    if !LastHides(v, ps) { SameOnPaths(v, w, ps); }
  }

  lemma SameOnPaths(v: Tree, w: Tree, ps: seq<Name>)
    requires forall p :: p in ps <==> p in v
    requires forall p :: p in ps <==> p in w
    requires forall p :: p in ps ==> v[p] == w[p]
    ensures v == w
  { }

  // The last file cut at a NUL, and the entries hidden behind it put in their places.
  lemma {:induction false} Unhidden(t: Tree, u: Tree, ps: seq<Name>, i: nat, qs: seq<Name>)
    requires AllShown(t, ps) && AllShown(u, ps) && AllShown(u, qs) && ps != []
    requires forall k :: 0 <= k < |ps| - 1 ==> u[ps[k]] == t[ps[k]]
    requires var last := ps[|ps| - 1];
      t[last].File? && i < |t[last].content| && t[last].content[i] == 0 && u[last] == File(t[last].content[..i])
      && t[last].content[i + 1..] + NUL == EncodeAll(u, qs)
    ensures AllShown(u, ps + qs) && EncodeAll(u, ps + qs) == EncodeAll(t, ps)
    decreases |ps|
  {
    assert (ps + qs)[1..] == ps[1..] + qs;
    if |ps| == 1 {
      var c := t[ps[0]].content;
      assert ps[1..] == [] && ps[1..] + qs == qs;
      assert Then(c[..i], c[i + 1..] + NUL) == Then(c, []) by { assert c == c[..i] + NUL + c[i + 1..]; }
    } else {
      assert ps[1..][|ps| - 2] == ps[|ps| - 1];
      Unhidden(t, u, ps[1..], i, qs);
    }
  }

  lemma LastIsGreatest(ps: seq<Name>, q: Name)
    requires Sorted(ps) && ps != [] && Less(ps[|ps| - 1], q)
    ensures forall i :: 0 <= i < |ps| ==> Less(ps[i], q) && ps[i] != q
  {
    forall i | 0 <= i < |ps| ensures Less(ps[i], q) && ps[i] != q {
      if i < |ps| - 1 { LessTransitive(ps[i], ps[|ps| - 1], q); }
      if ps[i] == q { LessTransitive(q, q, q); }
    }
  }

  lemma SortedConcat(ps: seq<Name>, qs: seq<Name>)
    requires Sorted(ps) && Sorted(qs) && ps != []
    requires forall j :: 0 <= j < |qs| ==> Less(ps[|ps| - 1], qs[j])
    ensures Sorted(ps + qs) && forall q :: q in qs ==> q !in ps
  {
    forall j | 0 <= j < |qs| ensures forall i :: 0 <= i < |ps| ==> Less(ps[i], qs[j]) && ps[i] != qs[j] {
      LastIsGreatest(ps, qs[j]);
    }
  }

  lemma HiddenPaths(t: Tree, v: Tree, p: Name, c: seq<Byte>, u: Tree)
    requires Visible(t) == t && Visible(v) == v && Paths(t) != [] && p == Paths(t)[|Paths(t)| - 1]
    requires u == t[p := File(c)] + v && forall q :: q in v ==> Less(p, q)
    ensures Visible(u) == u && Paths(u) == Paths(t) + Paths(v)
    ensures forall q :: q in v ==> q !in t
  {
    var ps, qs := Paths(t), Paths(v);
    forall j | 0 <= j < |qs| ensures Less(p, qs[j]) { assert qs[j] in qs; }
    SortedConcat(ps, qs);
    forall q | q in v ensures q !in t { assert q in qs; assert q in t <==> q in ps; }
    VisibleSum(t, v, p, c, u);
    assert p in ps;
    forall q ensures q in Paths(u) <==> q in ps + qs { assert q in Paths(u) <==> q in u; }
    SortedUnique(Paths(u), ps + qs);
  }

  lemma VisibleSum(t: Tree, v: Tree, p: Name, c: seq<Byte>, u: Tree)
    requires Visible(t) == t && Visible(v) == v && u == t[p := File(c)] + v
    ensures Visible(u) == u
  {
    forall q | q in u ensures !u[q].Directory? {
      assert q in t ==> q in Visible(t);
      assert q in v ==> q in Visible(v);
    }
  }

  lemma HiddenNodes(t: Tree, v: Tree, p: Name, c: seq<Byte>, u: Tree)
    requires Visible(t) == t && Visible(v) == v && Paths(t) != [] && p == Paths(t)[|Paths(t)| - 1]
    requires u == t[p := File(c)] + v && forall q :: q in v ==> q !in t
    ensures AllShown(u, Paths(t)) && AllShown(u, Paths(v)) && u[p] == File(c)
    ensures forall k :: 0 <= k < |Paths(t)| - 1 ==> u[Paths(t)[k]] == t[Paths(t)[k]]
    ensures forall q :: q in Paths(v) ==> q in v && u[q] == v[q]
  {
    KeptNodes(t, v, Paths(t), c, u);
    assert forall q :: q in Paths(v) <==> q in v;
  }

  lemma KeptNodes(t: Tree, v: Tree, ps: seq<Name>, c: seq<Byte>, u: Tree)
    requires ps != [] && Sorted(ps) && AllShown(t, ps) && u == t[ps[|ps| - 1] := File(c)] + v
    requires forall q :: q in v ==> q !in t
    ensures AllShown(u, ps) && u[ps[|ps| - 1]] == File(c)
    ensures forall k :: 0 <= k < |ps| - 1 ==> u[ps[k]] == t[ps[k]]
  {
    assert ps[|ps| - 1] in ps;
    forall k | 0 <= k < |ps| - 1 ensures u[ps[k]] == t[ps[k]] {
      assert ps[k] in ps;
      SortedNoRepeat(ps, k, |ps| - 1);
    }
  }

  lemma HiddenWitness(t: Tree, i: nat, v: Tree) returns (u: Tree)
    requires Visible(t) == t && Paths(t) != []
    requires var p := Paths(t)[|Paths(t)| - 1]; t[p].File? && i < |t[p].content| && HidesAt(p, t[p].content, i, v)
    ensures Stream(u) == Stream(t) && Visible(u) != t
  {
    var p := Paths(t)[|Paths(t)| - 1];
    u := t[p := File(t[p].content[..i])] + v;
    HiddenPaths(t, v, p, t[p].content[..i], u);
    HiddenNodes(t, v, p, t[p].content[..i], u);
    HiddenStream(t, v, i, u);
    var q :| q in v;
    assert q in u && q !in t;
  }

  lemma HiddenStream(t: Tree, v: Tree, i: nat, u: Tree)
    requires Visible(t) == t && Visible(u) == u && Visible(v) == v && Paths(t) != []
    requires AllShown(u, Paths(t)) && AllShown(u, Paths(v)) && Paths(u) == Paths(t) + Paths(v)
    requires forall k :: 0 <= k < |Paths(t)| - 1 ==> u[Paths(t)[k]] == t[Paths(t)[k]]
    requires forall q :: q in Paths(v) ==> q in v && u[q] == v[q]
    requires var p := Paths(t)[|Paths(t)| - 1];
      && t[p].File? && i < |t[p].content| && t[p].content[i] == 0 && u[p] == File(t[p].content[..i])
      && t[p].content[i + 1..] + NUL == Stream(v)
    ensures Stream(u) == Stream(t)
  {
    var ps, qs := Paths(t), Paths(v);
    ShownStream(v, qs);
    EncodeSame(v, u, qs);
    Unhidden(t, u, ps, i, qs);
    ShownStream(t, ps);
    ShownStream(u, ps + qs);
  }

  lemma ShownStream(t: Tree, ps: seq<Name>)
    requires Visible(t) == t && Paths(t) == ps
    ensures AllShown(t, ps) && Stream(t) == EncodeAll(t, ps)
  {
    StreamIsPaths(t);
  }

  ghost predicate Shares(t: Tree) { exists u :: Stream(u) == Stream(t) && Visible(u) != Visible(t) }

  lemma FileBeforeShares(t: Tree)
    requires FileBeforeEnd(t, Paths(t))
    ensures Shares(t)
  {
    var i :| 0 <= i < |Paths(t)| - 1 && t[Paths(t)[i]].File?;
    var u := SwallowWitness(t, i);
  }

  lemma HidingShares(t: Tree)
    requires LastHides(t, Paths(t))
    ensures Shares(t)
  {
    var p := Paths(t)[|Paths(t)| - 1];
    var i, v :| 0 <= i < |t[p].content| && HidesAt(p, t[p].content, i, v);
    VisibleAgain(t);
    var u := HiddenWitness(Visible(t), i, v);
  }

  lemma SharesOnlyThen(t: Tree)
    requires Shares(t)
    ensures FileBeforeEnd(t, Paths(t)) || LastHides(t, Paths(t))
  {
    var u :| Stream(u) == Stream(t) && Visible(u) != Visible(t);
    if !FileBeforeEnd(t, Paths(t)) { NotShared(t, u); }
  }

  /** Which trees share their stream with a different tree: exactly those with a file before another entry in path
      order, and those whose last entry is a file holding a NUL and, behind it, what reads as later entries. */
  lemma SharedIff(t: Tree)
    ensures Shares(t) <==> FileBeforeEnd(t, Paths(t)) || LastHides(t, Paths(t))
  {
    if FileBeforeEnd(t, Paths(t)) { FileBeforeShares(t); }
    if LastHides(t, Paths(t)) { HidingShares(t); }
    if Shares(t) { SharesOnlyThen(t); }
  }

  lemma VisibleAgain(t: Tree)
    ensures Visible(Visible(t)) == Visible(t) && Paths(Visible(t)) == Paths(t) && Stream(Visible(t)) == Stream(t)
  {
    assert Visible(Visible(t)) == Visible(t);
    SortedUnique(Paths(Visible(t)), Paths(t));
    StreamIsPaths(t);
    StreamIsPaths(Visible(t));
  }

  // The bytes of one entry: a word for its kind, its path and its content or target, each followed by a NUL.
  function EntryBytes(p: Name, n: Node): seq<Byte> {
    match n
    case File(content) => [102, 105, 108, 101, 0] + p + [0] + content + [0]
    case LinkTo(target) => [115, 121, 109, 108, 105, 110, 107, 0] + p + [0] + target + [0]
    case Directory => []
  }

  // The entries' bytes one after the other.
  function InTurn(t: Tree, ps: seq<Name>): seq<Byte>
    requires forall p :: p in ps ==> p in t
  {
    if ps == [] then [] else EntryBytes(ps[0], t[ps[0]]) + InTurn(t, ps[1..])
  }

  lemma EncodeIsBytes(p: Name, n: Node, rest: seq<Byte>)
    ensures Encode(p, n, rest) == EntryBytes(p, n) + rest
  {
    match n
    case File(content) => Fed([], FILE, p, content, rest);
    case LinkTo(target) => Fed([], SYMLINK, p, target, rest);
    case Directory =>
  }

  lemma {:induction false} EncodeIsInTurn(t: Tree, ps: seq<Name>)
    requires forall p :: p in ps ==> p in t
    ensures EncodeAll(t, ps) == InTurn(t, ps)
    decreases |ps|
  {
    if ps != [] {
      EncodeIsInTurn(t, ps[1..]);
      EncodeIsBytes(ps[0], t[ps[0]], EncodeAll(t, ps[1..]));
    }
  }

  /** The stream in bytes: the entries of the tree in path order, one after the other, each with the word "file" or
      "symlink", its path and its content or target, and a NUL behind each of the three. */
  lemma StreamInBytes(t: Tree, ps: seq<Name>)
    requires Sorted(ps) && forall p :: p in ps <==> p in t
    ensures Stream(t) == InTurn(t, ps)
  {
    SortedUnique(ps, SortedNames(t.Keys));
    EncodeIsInTurn(t, ps);
  }

  /** One such tree: a file "a" holding "x", and after it a file "b" holding "y". */
  lemma StreamShared()
    ensures Shares(map[[97] := File([120]), [98] := File([121])])
  {
    var t: Tree := map[[97] := File([120]), [98] := File([121])];
    var a: Name, b: Name := [97], [98];
    assert Visible(t) == t;
    assert Less(a, b);
    SortedUnique(Paths(t), [a, b]);
    assert t[Paths(t)[0]].File?;
    FileBeforeShares(t);
  }

  // ---- the hashing loop ----

  class Digest {
    var fed: seq<Byte>

    constructor ()
      ensures fed == []
    {
      fed := [];
    }

    method Update(bytes: seq<Byte>)
      modifies this
      ensures fed == old(fed) + bytes
    {
      fed := fed + bytes;
    }

    /** Reads a file in chunks of at most one mebibyte; the chunk borders leave no trace. */
    method UpdateFile(content: seq<Byte>)
      modifies this
      ensures fed == old(fed) + content
    {
      var at := 0;
      while at < |content|
        invariant 0 <= at <= |content|
        invariant fed == old(fed) + content[..at]
      {
        var end := if at + CHUNK < |content| then at + CHUNK else |content|;
        assert content[..end] == content[..at] + content[at..end];
        Update(content[at..end]);
        at := end;
      }
      assert content[..at] == content;
    }

    // One child: type, path and body, each followed by a NUL; a directory feeds nothing.
    method HashNode(p: Name, n: Node, ghost rest: seq<Byte>)
      modifies this
      ensures fed + rest == old(fed) + Encode(p, n, rest)
    {
      match n {
        case File(content) =>
          Update(FILE + NUL + p + NUL);
          UpdateFile(content);
          Update(NUL);
          Fed(old(fed), FILE, p, content, rest);
        case LinkTo(target) =>
          Update(SYMLINK + NUL + p + NUL);
          Update(target);
          Update(NUL);
          Fed(old(fed), SYMLINK, p, target, rest);
        case Directory =>
      }
    }

    /** The loop over the sorted children: whatever the order of the listing, what has been fed at the end is
        the stream of the tree. */
    method HashTree(t: Tree, sorted: seq<Name>)
      requires Sorted(sorted) && forall p :: p in sorted <==> p in t
      modifies this
      ensures fed == old(fed) + Stream(t)
    {
      for i := 0 to |sorted|
        invariant fed + EncodeAll(t, sorted[i..]) == old(fed) + EncodeAll(t, sorted)
      {
        assert sorted[i..][1..] == sorted[i + 1..];
        HashNode(sorted[i], t[sorted[i]], EncodeAll(t, sorted[i + 1..]));
      }
      assert sorted[|sorted|..] == [];
      SortedUnique(sorted, SortedNames(t.Keys));
    }
  }

  lemma Fed(before: seq<Byte>, tag: seq<Byte>, p: Name, body: seq<Byte>, rest: seq<Byte>)
    ensures before + (tag + NUL + p + NUL) + body + NUL + rest == before + Then(tag, Then(p, Then(body, rest)))
  { }
}
