/**
 * The byte stream hashed for an execution bundle (internal/executionbundle/store.go).
 * Text is its bytes, one character each.
 */
module BundleEncoding {
  import opened Wrappers
  import opened Text

  const MARKER := ".windforce-execution-bundle.json"

  // A directory's children, in the order of their names.
  datatype Child = Child(name: string, node: Node)

  datatype Node =
    | File(mode: nat, contents: string)
    | Link(mode: nat, target: string)
    | Dir(mode: nat, children: seq<Child>)
    | Special(mode: nat)

  // What the walk reports of one path.
  datatype Kind = IsFile(contents: string) | IsLink(target: string) | IsDir | IsSpecial

  datatype Entry = Entry(path: string, mode: nat, kind: Kind)

  predicate GoodName(name: string) {
    name != "" && '/' !in name
  }

  /** Children as a file system keeps them: proper names, each once, in order. */
  predicate WellFormed(children: seq<Child>) {
    && (forall i | 0 <= i < |children| :: GoodName(children[i].name) && (children[i].node.Dir? ==> WellFormed(children[i].node.children)))
    && (forall i, k | 0 <= i < k < |children| :: Less(children[i].name, children[k].name))
  }

  function EntryOf(path: string, node: Node): Entry {
    Entry(path, node.mode,
          match node
          case File(_, contents) => IsFile(contents)
          case Link(_, target) => IsLink(target)
          case Dir(_, _) => IsDir
          case Special(_) => IsSpecial)
  }

  /** filepath.WalkDir below a directory: every entry before what is inside it. */
  function Walk(prefix: string, children: seq<Child>): seq<Entry>
    decreases children
  {
    if children == [] then []
    else
      var c := children[0];
      [EntryOf(prefix + c.name, c.node)]
      + (if c.node.Dir? then Walk(prefix + c.name + "/", c.node.children) else [])
      + Walk(prefix, children[1..])
  }

  /** The entries hashTree hashes: all but the descriptor's. */
  function Kept(entries: seq<Entry>): seq<Entry> {
    if entries == [] then []
    else (if entries[0].path == MARKER then [] else [entries[0]]) + Kept(entries[1..])
  }

  predicate Supported(entries: seq<Entry>) {
    forall e | e in entries :: !e.kind.IsSpecial?
  }

  // The encoding.

  /** writeHashString. */
  function Field(value: string): string {
    Decimal(|value|) + ":" + value + "\0"
  }

  function Encode(e: Entry): string
    requires !e.kind.IsSpecial?
  {
    Field(e.path) + Field(Digits(e.mode, 8)) +
    match e.kind
    case IsFile(contents) => Field("file") + Field(Decimal(|contents|)) + contents
    case IsLink(target) => Field("symlink") + Field(target)
    case IsDir => Field("dir")
  }

  function Stream(entries: seq<Entry>): string
    requires Supported(entries)
  {
    if entries == [] then "" else Encode(entries[0]) + Stream(entries[1..])
  }

  // The decoder.

  datatype Parsed<+T> = Parsed(value: T, rest: string)

  function IndexOf(s: string, c: char): (i: nat)
    ensures i <= |s| && (i < |s| ==> s[i] == c)
  {
    if s == "" || s[0] == c then 0 else 1 + IndexOf(s[1..], c)
  }

  function Number(s: string, base: nat): int {
    if s == "" then 0 else Number(s[..|s| - 1], base) * base + (s[|s| - 1] as int - '0' as int)
  }

  function ReadField(s: string): (r: Option<Parsed<string>>)
    ensures r.Some? ==> |r.value.rest| < |s|
  {
    var colon := IndexOf(s, ':');
    if colon == |s| then None
    else
      var n, rest := Number(s[..colon], 10), s[colon + 1..];
      if n < 0 || |rest| <= n || rest[n] != '\0' then None else Some(Parsed(rest[..n], rest[n + 1..]))
  }

  function ReadKind(s: string): (r: Option<Parsed<Kind>>)
    ensures r.Some? ==> |r.value.rest| < |s|
  {
    var kind := ReadField(s);
    if kind.None? then None
    else if kind.value.value == "dir" then Some(Parsed(IsDir, kind.value.rest))
    else
      var field := ReadField(kind.value.rest);
      if field.None? then None
      else if kind.value.value == "symlink" then Some(Parsed(IsLink(field.value.value), field.value.rest))
      else if kind.value.value != "file" then None
      else
        var size, rest := Number(field.value.value, 10), field.value.rest;
        if size < 0 || |rest| < size then None else Some(Parsed(IsFile(rest[..size]), rest[size..]))
  }

  function ReadEntry(s: string): (r: Option<Parsed<Entry>>)
    ensures r.Some? ==> |r.value.rest| < |s|
  {
    var path := ReadField(s);
    if path.None? then None
    else
      var mode := ReadField(path.value.rest);
      if mode.None? || Number(mode.value.value, 8) < 0 then None
      else
        var kind := ReadKind(mode.value.rest);
        if kind.None? then None
        else Some(Parsed(Entry(path.value.value, Number(mode.value.value, 8), kind.value.value), kind.value.rest))
  }

  function Decode(s: string): Option<seq<Entry>>
    decreases |s|
  {
    if s == "" then Some([])
    else
      var first := ReadEntry(s);
      if first.None? then None
      else
        var more := Decode(first.value.rest);
        if more.None? then None else Some([first.value.value] + more.value)
  }

  // Decoding undoes encoding.

  lemma {:induction false} DigitsAreDigits(n: nat, base: nat)
    requires 2 <= base <= 10
    ensures Digits(n, base) != "" && forall i | 0 <= i < |Digits(n, base)| :: '0' <= Digits(n, base)[i] <= '9'
  {
    if n >= base { DigitsAreDigits(n / base, base); }
  }

  lemma {:induction false} NumberOfDigits(n: nat, base: nat)
    requires 2 <= base <= 10
    ensures Number(Digits(n, base), base) == n
  {
    var last := [(('0' as int) + n % base) as char];
    if n < base {
      assert last[..0] == "";
      assert Number(last, base) == Number(last[..0], base) * base + n;
    } else {
      NumberOfDigits(n / base, base);
      var high := Digits(n / base, base);
      NumberOfOneMore(high, last[0], base);
      DivMod(n, base);
    }
  }

  lemma {:induction false} NumberOfOneMore(s: string, c: char, base: nat)
    ensures Number(s + [c], base) == Number(s, base) * base + (c as int - '0' as int)
  {}

  lemma DivMod(n: nat, base: nat)
    requires base > 0
    ensures n / base * base + n % base == n
  {
  }

  lemma {:induction false} IndexAfter(a: string, c: char, b: string)
    requires c !in a
    ensures IndexOf(a + [c] + b, c) == |a|
  {
    if a != "" {
      IndexAfter(a[1..], c, b);
      assert (a + [c] + b)[1..] == a[1..] + [c] + b;
    }
  }

  lemma ReadsField(v: string, rest: string)
    ensures ReadField(Field(v) + rest) == Some(Parsed(v, rest))
  {
    var length := Decimal(|v|);
    var s := Field(v) + rest;
    DigitsAreDigits(|v|, 10);
    NumberOfDigits(|v|, 10);
    var after := v + "\0" + rest;
    assert ':' !in length;
    assert s == length + [':'] + after;
    IndexAfter(length, ':', after);
    assert s[..|length|] == length && s[|length| + 1..] == after;
    assert after[|v|] == '\0' && after[..|v|] == v && after[|v| + 1..] == rest;
  }

  lemma ReadsKind(e: Entry, rest: string)
    requires !e.kind.IsSpecial?
    ensures var head := Field(e.path) + Field(Digits(e.mode, 8)); head <= Encode(e) && ReadKind(Encode(e)[|head|..] + rest) == Some(Parsed(e.kind, rest))
  {
    hide Field, ReadField, Digits, Number;
    match e.kind
    case IsDir =>
      ReadsField("dir", rest);
    case IsLink(target) =>
      ReadsField("symlink", Field(target) + rest);
      assert Field("symlink") + Field(target) + rest == Field("symlink") + (Field(target) + rest);
      ReadsField(target, rest);
    case IsFile(contents) =>
      var size := Decimal(|contents|);
      ReadsField("file", Field(size) + contents + rest);
      assert Field("file") + Field(size) + contents + rest == Field("file") + (Field(size) + contents + rest);
      ReadsField(size, contents + rest);
      assert Field(size) + contents + rest == Field(size) + (contents + rest);
      NumberOfDigits(|contents|, 10);
      assert (contents + rest)[..|contents|] == contents && (contents + rest)[|contents|..] == rest;
  }

  lemma ReadsEntry(e: Entry, rest: string)
    requires !e.kind.IsSpecial?
    ensures ReadEntry(Encode(e) + rest) == Some(Parsed(e, rest))
  {
    hide Field, ReadField, ReadKind, Digits, Number;
    var path, mode := Field(e.path), Field(Digits(e.mode, 8));
    ReadsKind(e, rest);
    var tail := Encode(e)[|path + mode|..];
    assert Encode(e) + rest == path + (mode + (tail + rest));
    ReadsField(e.path, mode + (tail + rest));
    ReadsField(Digits(e.mode, 8), tail + rest);
    NumberOfDigits(e.mode, 8);
  }

  /** The stream is uniquely decodable: the decoder gives back every path, mode, kind, link target and contents. */
  lemma {:induction false} DecodeEncode(entries: seq<Entry>)
    requires Supported(entries)
    ensures Decode(Stream(entries)) == Some(entries)
  {
    hide Encode, ReadEntry;
    if entries != [] {
      var rest := Stream(entries[1..]);
      ReadsEntry(entries[0], rest);
      DecodeEncode(entries[1..]);
      assert |Encode(entries[0]) + rest| > |rest|;
      assert [entries[0]] + entries[1..] == entries;
    }
  }

  lemma {:induction false} EqualStreams(a: seq<Entry>, b: seq<Entry>)
    requires Supported(a) && Supported(b) && Stream(a) == Stream(b)
    ensures a == b
  {
    DecodeEncode(a);
    DecodeEncode(b);
  }

  // The walk determines the directory.

  predicate Below(e: Entry, prefix: string) {
    prefix <= e.path && |prefix| < |e.path|
  }

  lemma {:induction false} WalkStaysBelow(prefix: string, children: seq<Child>)
    requires WellFormed(children)
    ensures forall e | e in Walk(prefix, children) :: Below(e, prefix)
    decreases children
  {
    if children != [] {
      var c := children[0];
      if c.node.Dir? { WalkStaysBelow(prefix + c.name + "/", c.node.children); }
      WalkStaysBelow(prefix, children[1..]);
    }
  }

  /** Entries of one directory and what follows it separate at the first path outside it. */
  lemma {:induction false} SplitWalk(inside: string, a: seq<Entry>, b: seq<Entry>, x: seq<Entry>, y: seq<Entry>)
    requires a + x == b + y
    requires (forall e | e in a :: Below(e, inside)) && (forall e | e in b :: Below(e, inside))
    requires (x == [] || !Below(x[0], inside)) && (y == [] || !Below(y[0], inside))
    ensures a == b && x == y
  {
    var s := a + x;
    assert forall i | 0 <= i < |a| :: s[i] == a[i] && a[i] in a;
    assert forall i | 0 <= i < |b| :: s[i] == b[i] && b[i] in b;
    assert x != [] ==> s[|a|] == x[0];
    assert y != [] ==> s[|b|] == y[0];
    assert |a| == |b|;
    assert a == s[..|a|] && x == s[|a|..];
  }

  lemma {:induction false} NextSiblingIsOutside(prefix: string, name: string, rest: seq<Child>)
    requires GoodName(name) && WellFormed(rest) && forall i | 0 <= i < |rest| :: rest[i].name != name
    ensures var after := Walk(prefix, rest); after == [] || !Below(after[0], prefix + name + "/")
  {
    if rest != [] {
      var other := rest[0].name;
      var path, inside := prefix + other, prefix + name + "/";
      assert Walk(prefix, rest)[0] == EntryOf(path, rest[0].node);
      var i := |prefix| + |name|;
      assert inside[i] == '/';
      assert i < |path| ==> path[i] == other[|name|] && other[|name|] in other;
    }
  }

  lemma {:induction false} TailIsWellFormed(children: seq<Child>)
    requires WellFormed(children) && children != []
    ensures WellFormed(children[1..]) && GoodName(children[0].name)
    ensures forall i | 0 <= i < |children[1..]| :: children[1..][i].name != children[0].name
  {
    forall i | 0 <= i < |children[1..]| ensures children[1..][i].name != children[0].name {
      assert Less(children[0].name, children[i + 1].name);
      LessIsTotal(children[0].name, children[i + 1].name);
    }
  }

  /** Two directories that are walked alike are the same directory. */
  lemma {:induction false} WalkIsInjective(prefix: string, a: seq<Child>, b: seq<Child>)
    requires WellFormed(a) && WellFormed(b) && Walk(prefix, a) == Walk(prefix, b)
    ensures a == b
    decreases a
  {
    if a != [] && b != [] {
      TailIsWellFormed(a);
      TailIsWellFormed(b);
      HeadsAgree(prefix, a, b);
      var c, d := a[0], b[0];
      var inside := prefix + c.name + "/";
      var x, y := Walk(prefix, a[1..]), Walk(prefix, b[1..]);
      NextSiblingIsOutside(prefix, c.name, a[1..]);
      NextSiblingIsOutside(prefix, d.name, b[1..]);
      if c.node.Dir? {
        WalkStaysBelow(inside, c.node.children);
        WalkStaysBelow(inside, d.node.children);
        hide Walk, Below, WellFormed;
        SplitWalk(inside, Inside(prefix, c), Inside(prefix, d), x, y);
        WalkIsInjective(inside, c.node.children, d.node.children);
      }
      assert x == y by { assert [] + x == x && [] + y == y; }
      hide Walk, Below, WellFormed;
      WalkIsInjective(prefix, a[1..], b[1..]);
      assert a == [c] + a[1..] && b == [d] + b[1..];
    }
  }

  // The walk of what is inside a child.
  function Inside(prefix: string, c: Child): seq<Entry> {
    if c.node.Dir? then Walk(prefix + c.name + "/", c.node.children) else []
  }

  lemma {:induction false} HeadsAgree(prefix: string, a: seq<Child>, b: seq<Child>)
    requires a != [] && b != [] && Walk(prefix, a) == Walk(prefix, b)
    ensures a[0].name == b[0].name && EntryOf(prefix, a[0].node) == EntryOf(prefix, b[0].node)
    ensures Inside(prefix, a[0]) + Walk(prefix, a[1..]) == Inside(prefix, b[0]) + Walk(prefix, b[1..])
  {
    var c, d := a[0], b[0];
    WalkUnfolds(prefix, a);
    WalkUnfolds(prefix, b);
    hide Walk, Inside;
    ConsEqual(EntryOf(prefix + c.name, c.node), Inside(prefix, c) + Walk(prefix, a[1..]),
              EntryOf(prefix + d.name, d.node), Inside(prefix, d) + Walk(prefix, b[1..]));
    assert c.name == (prefix + c.name)[|prefix|..] && d.name == (prefix + d.name)[|prefix|..];
  }

  lemma {:induction false} WalkUnfolds(prefix: string, children: seq<Child>)
    requires children != []
    ensures var c := children[0];
      Walk(prefix, children) == [EntryOf(prefix + c.name, c.node)] + (Inside(prefix, c) + Walk(prefix, children[1..]))
  {
  }

  lemma ConsEqual<T>(x: T, a: seq<T>, y: T, b: seq<T>)
    requires [x] + a == [y] + b
    ensures x == y && a == b
  {
    assert ([x] + a)[0] == ([y] + b)[0];
    assert a == ([x] + a)[1..] && b == ([y] + b)[1..];
  }

  // The descriptor file.

  // The descriptor's name is not taken by a directory with something in it.
  predicate MarkerIsPlain(children: seq<Child>) {
    forall c | c in children :: c.name == MARKER && c.node.Dir? ==> c.node.children == []
  }

  /** What a directory under the descriptor's name holds. */
  function Hidden(children: seq<Child>): seq<Child> {
    if children == [] then []
    else if children[0].name == MARKER && children[0].node.Dir? then children[0].node.children
    else Hidden(children[1..])
  }

  function Erase(children: seq<Child>): seq<Child> {
    if children == [] then []
    else (if children[0].name == MARKER then [] else [children[0]]) + Erase(children[1..])
  }

  lemma {:induction false} KeptOfCons(e: Entry, rest: seq<Entry>)
    ensures Kept([e] + rest) == (if e.path == MARKER then [] else [e]) + Kept(rest)
  {
    assert ([e] + rest)[1..] == rest;
  }

  lemma {:induction false} KeptConcat(a: seq<Entry>, b: seq<Entry>)
    ensures Kept(a + b) == Kept(a) + Kept(b)
  {
    if a == [] {
      assert a + b == b;
    } else {
      hide Kept;
      var e, rest := a[0], a[1..];
      KeptConcat(rest, b);
      KeptOfCons(e, rest);
      KeptOfCons(e, rest + b);
      Associates([e], rest, b);
      Associates(if e.path == MARKER then [] else [e], Kept(rest), Kept(b));
      assert a == [e] + rest;
    }
  }

  lemma Associates<T>(a: seq<T>, b: seq<T>, c: seq<T>)
    ensures (a + b) + c == a + (b + c)
  {}

  lemma {:induction false} KeptAll(a: seq<Entry>)
    requires forall e | e in a :: e.path != MARKER
    ensures Kept(a) == a
  {
    if a != [] { KeptAll(a[1..]); }
  }

  lemma MarkerHasNoSlash()
    ensures forall i | 0 <= i < |MARKER| :: MARKER[i] != '/'
  {
  }

  lemma {:induction false} EraseKeepsForm(children: seq<Child>)
    requires WellFormed(children)
    ensures WellFormed(Erase(children)) && forall c | c in Erase(children) :: c in children
  {
    if children != [] {
      TailIsWellFormed(children);
      EraseKeepsForm(children[1..]);
      var tail := Erase(children[1..]);
      forall i | 0 <= i < |tail| ensures Less(children[0].name, tail[i].name) {
        assert tail[i] in children[1..];
        var k :| 0 <= k < |children[1..]| && children[1..][k] == tail[i];
        assert children[k + 1] == tail[i];
      }
    }
  }

  function Hashed(children: seq<Child>): seq<Entry> {
    Kept(Walk("", children))
  }

  /** The same directory, but for the descriptor itself. */
  predicate SameTree(a: seq<Child>, b: seq<Child>) {
    Erase(a) == Erase(b) && Hidden(a) == Hidden(b)
  }

  lemma {:induction false} HashedUnfolds(children: seq<Child>)
    requires WellFormed(children) && children != []
    ensures var c := children[0];
      Hashed(children) == (if c.name == MARKER then [] else [EntryOf(c.name, c.node)]) + Inside("", c) + Hashed(children[1..])
    ensures forall e | e in Inside("", children[0]) :: children[0].name + "/" <= e.path
  {
    var c := children[0];
    assert "" + c.name == c.name;
    var first, kids, rest := [EntryOf(c.name, c.node)], Inside("", c), Walk("", children[1..]);
    assert Walk("", children) == first + kids + rest by { WalkUnfolds("", children); }
    if c.node.Dir? { WalkStaysBelow(c.name + "/", c.node.children); }
    forall e | e in kids ensures e.path != MARKER {
      assert e.path[|c.name|] == (c.name + "/")[|c.name|] == '/';
      MarkerHasNoSlash();
    }
    KeptAll(kids);
    KeptConcat(first + kids, rest);
    KeptConcat(first, kids);
    assert Kept(first) == if c.name == MARKER then [] else first;
  }

  // The entries inside a directory of the descriptor's name, or the others.
  predicate InMarker(e: Entry) {
    MARKER + "/" <= e.path
  }

  function Part(entries: seq<Entry>, inside: bool): seq<Entry> {
    if entries == [] then []
    else (if InMarker(entries[0]) == inside then [entries[0]] else []) + Part(entries[1..], inside)
  }

  lemma {:induction false} PartOfCons(e: Entry, rest: seq<Entry>, inside: bool)
    ensures Part([e] + rest, inside) == (if InMarker(e) == inside then [e] else []) + Part(rest, inside)
  {
    hide InMarker;
    assert ([e] + rest)[1..] == rest;
  }

  lemma {:induction false} PartConcat(a: seq<Entry>, b: seq<Entry>, inside: bool)
    ensures Part(a + b, inside) == Part(a, inside) + Part(b, inside)
  {
    if a == [] {
      assert a + b == b;
    } else {
      hide Part, InMarker;
      var e, rest := a[0], a[1..];
      PartConcat(rest, b, inside);
      PartOfCons(e, rest, inside);
      PartOfCons(e, rest + b, inside);
      Associates([e], rest, b);
      Associates(if InMarker(e) == inside then [e] else [], Part(rest, inside), Part(b, inside));
      assert a == [e] + rest;
    }
  }

  lemma {:induction false} PartOfOne(a: seq<Entry>, lies: bool, inside: bool)
    requires forall e | e in a :: InMarker(e) == lies
    ensures Part(a, inside) == if lies == inside then a else []
  {
    if a != [] { PartOfOne(a[1..], lies, inside); }
  }

  lemma FirstNameOf(name: string, path: string)
    requires '/' !in name && name + "/" <= path
    ensures MARKER + "/" <= path <==> name == MARKER
  {
    if MARKER + "/" <= path {
      MarkerHasNoSlash();
      var x, y := path[|name| + 1..], path[|MARKER| + 1..];
      assert path == name + ['/'] + x && path == MARKER + ['/'] + y;
      IndexAfter(name, '/', x);
      IndexAfter(MARKER, '/', y);
      assert name == path[..|name|] && MARKER == path[..|MARKER|];
    }
  }

  /** Both parts of what is hashed are walks: of the directory without its descriptor, and of what is hidden under that name. */
  lemma {:induction false} PartsAreWalks(children: seq<Child>)
    requires WellFormed(children)
    ensures Part(Hashed(children), false) == Walk("", Erase(children))
    ensures Part(Hashed(children), true) == Walk(MARKER + "/", Hidden(children))
  {
    if children != [] {
      TailIsWellFormed(children);
      PartsAreWalks(children[1..]);
      HashedUnfolds(children);
      var c := children[0];
      var first, kids, rest := if c.name == MARKER then [] else [EntryOf(c.name, c.node)], Inside("", c), Hashed(children[1..]);
      forall e | e in kids ensures InMarker(e) == (c.name == MARKER) { FirstNameOf(c.name, e.path); }
      forall e | e in first ensures !InMarker(e) { if MARKER + "/" <= c.name { PrefixHasSlash(c.name); } }
      hide Hashed;
      forall inside: bool ensures Part(Hashed(children), inside) ==
        (if inside then [] else first) + (if inside == (c.name == MARKER) then kids else []) + Part(rest, inside)
      {
        PartConcat(first + kids, rest, inside);
        PartConcat(first, kids, inside);
        PartOfOne(first, false, inside);
        PartOfOne(kids, c.name == MARKER, inside);
      }
      ErasedWalk(children);
      if c.name == MARKER { NoneHidden(children[1..]); }
    }
  }

  lemma PrefixHasSlash(name: string)
    requires MARKER + "/" <= name
    ensures '/' in name
  {
    assert name[|MARKER|] == (MARKER + "/")[|MARKER|] == '/';
  }

  lemma {:induction false} ErasedWalk(children: seq<Child>)
    requires children != []
    ensures var c := children[0];
      Walk("", Erase(children)) == if c.name == MARKER then Walk("", Erase(children[1..]))
                                   else [EntryOf(c.name, c.node)] + Inside("", c) + Walk("", Erase(children[1..]))
  {
    var c := children[0];
    assert "" + c.name == c.name;
    if c.name == MARKER {
      assert Erase(children) == Erase(children[1..]);
    } else {
      assert Erase(children) == [c] + Erase(children[1..]);
      WalkUnfolds("", Erase(children));
    }
  }

  lemma {:induction false} NoneHidden(children: seq<Child>)
    requires forall c | c in children :: c.name != MARKER
    ensures Hidden(children) == [] && Erase(children) == children
  {
    if children != [] { NoneHidden(children[1..]); }
  }

  // What is hashed, from the directory without its descriptor and from what is hidden.
  function Rebuilt(erased: seq<Child>, hidden: seq<Child>): seq<Entry> {
    if erased == [] || Less(MARKER, erased[0].name) then Walk(MARKER + "/", hidden) + Walk("", erased)
    else [EntryOf(erased[0].name, erased[0].node)] + Inside("", erased[0]) + Rebuilt(erased[1..], hidden)
  }

  lemma {:induction false} HashedIsRebuilt(children: seq<Child>)
    requires WellFormed(children)
    ensures Hashed(children) == Rebuilt(Erase(children), Hidden(children))
  {
    if children != [] {
      var c, tail := children[0], children[1..];
      TailIsWellFormed(children);
      LessIsTotal(MARKER, c.name);
      hide Hashed, Less, WellFormed, Walk, Inside;
      if c.name == MARKER {
        AtMarker(children);
      } else if Less(MARKER, c.name) {
        AfterMarker(children);
      } else {
        HashedUnfolds(children);
        HashedIsRebuilt(tail);
        assert Erase(children) == [c] + Erase(tail);
        hide Erase, Hidden;
        assert ([c] + Erase(tail))[1..] == Erase(tail);
      }
    } else {
      assert Walk(MARKER + "/", []) == [];
    }
  }

  /** From the descriptor's name on, nothing else has that name. */
  lemma {:induction false} LaterNames(children: seq<Child>)
    requires WellFormed(children) && children != [] && (children[0].name == MARKER || Less(MARKER, children[0].name))
    ensures forall d | d in children[1..] :: Less(MARKER, d.name) && d.name != MARKER
  {
    var c, tail := children[0], children[1..];
    forall d | d in tail ensures Less(MARKER, d.name) && d.name != MARKER {
      var i :| 0 <= i < |tail| && tail[i] == d;
      assert children[i + 1] == d;
      if c.name != MARKER { LessIsTransitive(MARKER, c.name, d.name); }
      LessIsTotal(MARKER, d.name);
    }
  }

  lemma {:induction false} AtMarker(children: seq<Child>)
    requires WellFormed(children) && children != [] && children[0].name == MARKER
    ensures Erase(children) == children[1..] && (children[1..] != [] ==> Less(MARKER, children[1].name))
    ensures Hashed(children) == Walk(MARKER + "/", Hidden(children)) + Walk("", children[1..])
  {
    hide Walk, Hashed, Less, Inside;
    var c, tail := children[0], children[1..];
    TailIsWellFormed(children);
    LaterNames(children);
    assert tail != [] ==> tail[0] in tail;
    HashedUnfolds(children);
    hide WellFormed;
    NoneHidden(tail);
    AllHashed(tail);
    InsideTop(c);
    assert Hidden(children) == if c.node.Dir? then c.node.children else [];
    assert [] + Inside("", c) == Inside("", c);
    hide Hidden, Erase;
  }

  lemma {:induction false} AfterMarker(children: seq<Child>)
    requires WellFormed(children) && children != [] && Less(MARKER, children[0].name)
    ensures Erase(children) == children && Hashed(children) == Walk(MARKER + "/", Hidden(children)) + Walk("", children)
  {
    hide Walk, Hashed, Less, Inside;
    var c := children[0];
    LaterNames(children);
    LessIsTotal(MARKER, c.name);
    assert children == [c] + children[1..];
    NoneHidden(children);
    AllHashed(children);
    InsideTop(c);
  }

  lemma InsideTop(c: Child)
    ensures Inside("", c) == Walk(c.name + "/", if c.node.Dir? then c.node.children else [])
    ensures forall prefix :: Walk(prefix, []) == []
  {
    assert "" + c.name + "/" == c.name + "/";
  }

  lemma {:induction false} AllHashed(children: seq<Child>)
    requires WellFormed(children) && forall c | c in children :: c.name != MARKER
    ensures Hashed(children) == Walk("", children)
  {
    if children != [] {
      TailIsWellFormed(children);
      HashedUnfolds(children);
      WalkUnfolds("", children);
      AllHashed(children[1..]);
      assert "" + children[0].name == children[0].name;
    }
  }

  /** What is hashed names the directory, descriptor apart: the same entries exactly for the same directory. */
  lemma {:induction false} HashedExactly(a: seq<Child>, b: seq<Child>)
    requires WellFormed(a) && WellFormed(b)
    ensures Hashed(a) == Hashed(b) <==> SameTree(a, b)
  {
    HashedIsRebuilt(a);
    HashedIsRebuilt(b);
    if Hashed(a) == Hashed(b) {
      PartsAreWalks(a);
      PartsAreWalks(b);
      EraseKeepsForm(a);
      EraseKeepsForm(b);
      HiddenKeepsForm(a);
      HiddenKeepsForm(b);
      WalkIsInjective("", Erase(a), Erase(b));
      WalkIsInjective(MARKER + "/", Hidden(a), Hidden(b));
    }
  }

  lemma {:induction false} HiddenKeepsForm(children: seq<Child>)
    requires WellFormed(children)
    ensures WellFormed(Hidden(children)) && (MarkerIsPlain(children) <==> Hidden(children) == [])
  {
    if children != [] {
      var c, tail := children[0], children[1..];
      TailIsWellFormed(children);
      HiddenKeepsForm(tail);
      assert forall d :: d in children <==> d == c || d in tail;
      if c.name == MARKER {
        forall d | d in tail ensures d.name != MARKER { var i :| 0 <= i < |tail| && tail[i] == d; }
        NoneHidden(tail);
      }
    }
  }

  /** Directories have the same hashed stream exactly when they are the same directory, descriptor apart. */
  lemma {:induction false} EqualStreamsMeanEqualTrees(a: seq<Child>, b: seq<Child>)
    requires WellFormed(a) && WellFormed(b) && Supported(Hashed(a)) && Supported(Hashed(b))
    ensures Stream(Hashed(a)) == Stream(Hashed(b)) <==> SameTree(a, b)
  {
    HashedExactly(a, b);
    if Stream(Hashed(a)) == Stream(Hashed(b)) { EqualStreams(Hashed(a), Hashed(b)); }
  }

  lemma {:induction false} KeptKeeps(entries: seq<Entry>, e: Entry)
    ensures e in Kept(entries) <==> e in entries && e.path != MARKER
  {
    if entries != [] { KeptKeeps(entries[1..], e); }
  }

  /** A directory hidden under the descriptor's name shows in the stream. */
  lemma {:induction false} PlainnessIsHashed(a: seq<Child>, b: seq<Child>)
    requires WellFormed(a) && WellFormed(b) && Hashed(a) == Hashed(b) && MarkerIsPlain(b)
    ensures MarkerIsPlain(a)
  {
    HashedExactly(a, b);
    HiddenKeepsForm(a);
    HiddenKeepsForm(b);
  }
}

/** Publishing, verifying and fetching bundles (internal/executionbundle/store.go). */
module BundleStore {
  import opened Wrappers
  import opened Text
  import opened BundleEncoding

  type Time = int

  datatype BundleError =
    | RootRequired | NotADirectory | Unsupported | NotFound | BadDigest | BadDescriptor | DigestMismatch | CountMismatch
    | CopyFailed | BadDestination | DescriptorNotWritten

  datatype HashResult = HashResult(digest: string, fileCount: nat, sizeBytes: nat)

  datatype Descriptor = Descriptor(digest: string, uri: string, createdAt: Time, fileCount: nat, sizeBytes: nat)

  datatype MarkerFile = Missing | Malformed | Present(descriptor: Descriptor)

  datatype Stored = Stored(children: seq<Child>, marker: MarkerFile)

  function FileCount(entries: seq<Entry>): nat {
    if entries == [] then 0 else FileCount(entries[..|entries| - 1]) + if entries[|entries| - 1].kind.IsDir? then 0 else 1
  }

  function SizeBytes(entries: seq<Entry>): nat {
    if entries == [] then 0
    else
      var last := entries[|entries| - 1].kind;
      SizeBytes(entries[..|entries| - 1]) + if last.IsFile? then |last.contents| else 0
  }

  /** What hashTree computes, given the hash of a byte stream in hexadecimal. */
  function HashOf(h: string -> string, children: seq<Child>): Result<HashResult, BundleError> {
    var entries := Hashed(children);
    if !Supported(entries) then Failure(Unsupported)
    else Success(HashResult("sha256:" + h(Stream(entries)), FileCount(entries), SizeBytes(entries)))
  }

  predicate IsHex(c: char) {
    '0' <= c <= '9' || 'a' <= c <= 'f' || 'A' <= c <= 'F'
  }

  /** parseDigest. */
  function ParseDigest(digest: string): Option<string> {
    var trimmed := Trim(digest);
    var colon := IndexOf(trimmed, ':');
    if colon == |trimmed| then None
    else
      var value := trimmed[colon + 1..];
      if trimmed[..colon] != "sha256" || |value| != 64 || exists c :: c in value && !IsHex(c) then None else Some(value)
  }

  function ReadDescriptor(bundles: map<string, Stored>, digest: string): Result<Descriptor, BundleError> {
    var key := ParseDigest(digest);
    if key.None? then Failure(BadDigest)
    else if key.value !in bundles || bundles[key.value].marker.Missing? then Failure(NotFound)
    else if bundles[key.value].marker.Malformed? || bundles[key.value].marker.descriptor.digest != digest then Failure(BadDescriptor)
    else Success(bundles[key.value].marker.descriptor)
  }

  function VerifyOf(h: string -> string, bundles: map<string, Stored>, digest: string): Result<Descriptor, BundleError> {
    var read := ReadDescriptor(bundles, digest);
    if read.Failure? then read
    else
      var hash := HashOf(h, bundles[ParseDigest(digest).value].children);
      if hash.Failure? then Failure(hash.error)
      else if hash.value.digest != digest then Failure(DigestMismatch)
      else if read.value.fileCount != hash.value.fileCount || read.value.sizeBytes != hash.value.sizeBytes then Failure(CountMismatch)
      else read
  }

  // The running hash: what has been written to it.
  class Hasher {
    var fed: string

    constructor ()
      ensures fed == ""
    {
      fed := "";
    }

    method WriteString(value: string)
      modifies this
      ensures fed == old(fed) + Field(value)
    {
      fed := fed + Decimal(|value|);
      fed := fed + ":";
      fed := fed + value;
      fed := fed + "\0";
    }

    method Copy(contents: string)
      modifies this
      ensures fed == old(fed) + contents
    {
      fed := fed + contents;
    }
  }

  lemma {:induction false} StreamConcat(a: seq<Entry>, e: Entry)
    requires Supported(a) && !e.kind.IsSpecial?
    ensures Supported(a + [e]) && Stream(a + [e]) == Stream(a) + Encode(e)
  {
    hide Encode;
    if a == [] {
      assert [e][1..] == [] && a + [e] == [e];
      assert Stream([e]) == Encode(e) + Stream([]);
    } else {
      StreamConcat(a[1..], e);
      assert (a + [e])[1..] == a[1..] + [e];
    }
  }

  /** What hashTree does with one entry it hashes. */
  method HashEntry(hasher: Hasher, e: Entry) returns (file: nat, size: nat)
    requires !e.kind.IsSpecial?
    modifies hasher
    ensures hasher.fed == old(hasher.fed) + Encode(e)
    ensures file == (if e.kind.IsDir? then 0 else 1) && size == if e.kind.IsFile? then |e.kind.contents| else 0
  {
    hide Field, Digits;
    file, size := 0, 0;
    hasher.WriteString(e.path);
    hasher.WriteString(Digits(e.mode, 8));
    match e.kind
    case IsLink(target) =>
      hasher.WriteString("symlink");
      hasher.WriteString(target);
      file := 1;
    case IsDir =>
      hasher.WriteString("dir");
    case IsFile(contents) =>
      hasher.WriteString("file");
      hasher.WriteString(Decimal(|contents|));
      hasher.Copy(contents);
      size, file := |contents|, 1;
  }

  lemma {:induction false} KeptOneMore(entries: seq<Entry>, e: Entry)
    ensures Kept(entries + [e]) == if e.path == MARKER then Kept(entries) else Kept(entries) + [e]
  {
    KeptConcat(entries, [e]);
    assert Kept([e]) == (if e.path == MARKER then [] else [e]) + Kept([e][1..]);
    assert Kept(entries) + [] == Kept(entries);
  }

  lemma {:induction false} CountsOneMore(entries: seq<Entry>, e: Entry)
    ensures FileCount(entries + [e]) == FileCount(entries) + if e.kind.IsDir? then 0 else 1
    ensures SizeBytes(entries + [e]) == SizeBytes(entries) + if e.kind.IsFile? then |e.kind.contents| else 0
  {}

  /** hashTree: one pass over the walk, feeding the hash and the counters. */
  method HashTree(h: string -> string, children: seq<Child>) returns (r: Result<HashResult, BundleError>)
    ensures r == HashOf(h, children)
  {
    var walk := Walk("", children);
    var hasher := new Hasher();
    var fileCount, sizeBytes := 0, 0;
    assert walk[..|walk|] == walk;
    hide Encode, Walk, Kept, Stream, FileCount, SizeBytes;
    assert Kept(walk[..0]) == [] && Stream([]) == "" && FileCount([]) == 0 && SizeBytes([]) == 0 by { Empties(walk); }
    for i := 0 to |walk|
      invariant Supported(Kept(walk[..i]))
      invariant hasher.fed == Stream(Kept(walk[..i])) && fresh(hasher)
      invariant fileCount == FileCount(Kept(walk[..i])) && sizeBytes == SizeBytes(Kept(walk[..i]))
    {
      var e := walk[i];
      assert walk[..i + 1] == walk[..i] + [e];
      KeptOneMore(walk[..i], e);
      if e.path == MARKER {
        continue;
      }
      if e.kind.IsSpecial? {
        KeptKeeps(walk, e);
        return Failure(Unsupported);
      }
      StreamConcat(Kept(walk[..i]), e);
      CountsOneMore(Kept(walk[..i]), e);
      var file, size := HashEntry(hasher, e);
      fileCount, sizeBytes := fileCount + file, sizeBytes + size;
    }
    r := Success(HashResult("sha256:" + h(hasher.fed), fileCount, sizeBytes));
  }

  lemma Empties(walk: seq<Entry>)
    ensures Kept(walk[..0]) == [] && Stream([]) == "" && FileCount([]) == 0 && SizeBytes([]) == 0
  {
  }

  // What a publisher finds at its source path.
  datatype Source = NoSource | NoDirectory | Directory(children: seq<Child>)

  // The answer of Publish, whether it stored a bundle, and the store it leaves.
  datatype Publication = Publication(result: Result<Descriptor, BundleError>, created: bool, bundles: map<string, Stored>)

  // The answer of FetchTo and what ends up at the destination: None leaves it as it was.
  datatype Fetching = Fetching(result: Result<Descriptor, BundleError>, destination: Option<seq<Child>>)

  predicate MarkerIsDir(children: seq<Child>) {
    exists c :: c in children && c.name == MARKER && c.node.Dir?
  }

  // The rename to this key finds nothing in its way.
  predicate IsFree(bundles: map<string, Stored>, key: string) {
    key !in bundles
  }

  /**
   * `copied` is what copyTree left in the temporary directory, None if it
   * failed; `meanwhile` is the store as the final rename finds it.
   */
  function PublishOf(h: string -> string, root: string, bundles: map<string, Stored>, source: Source, copied: Option<seq<Child>>,
                     meanwhile: map<string, Stored>, now: Time): (p: Publication)
    ensures p.created ==> p.result.Success?
  {
    if Trim(root) == "" then Publication(Failure(RootRequired), false, bundles)
    else if !source.Directory? then Publication(Failure(if source.NoSource? then NotFound else NotADirectory), false, bundles)
    else
      var hash := HashOf(h, source.children);
      if hash.Failure? then Publication(Failure(hash.error), false, bundles)
      else
        var digest := hash.value.digest;
        var existing := VerifyOf(h, bundles, digest);
        if existing != Failure(NotFound) then Publication(existing, false, bundles)
        else if copied.None? then Publication(Failure(CopyFailed), false, bundles)
        else if HashOf(h, copied.value).Failure? then Publication(Failure(HashOf(h, copied.value).error), false, bundles)
        else if HashOf(h, copied.value).value.digest != digest then Publication(Failure(DigestMismatch), false, bundles)
        else if MarkerIsDir(copied.value) then Publication(Failure(DescriptorNotWritten), false, bundles)
        else
          var key := KeyOf(digest);
          if IsFree(meanwhile, key) then
            var descriptor := Descriptor(digest, "execution-bundle://sha256/" + key, now, hash.value.fileCount, hash.value.sizeBytes);
            Publication(Success(descriptor), true, meanwhile[key := Stored(Erase(copied.value), Present(descriptor))])
          else
            var raced := ReadDescriptor(meanwhile, digest);
            Publication(if raced.Success? then raced else Failure(DescriptorNotWritten), false, meanwhile)
  }

  function KeyOf(digest: string): string {
    var key := ParseDigest(digest);
    if key.Some? then key.value else ""
  }

  function FetchOf(h: string -> string, bundles: map<string, Stored>, digest: string, destinationAllowed: bool, copied: Option<seq<Child>>): Fetching {
    var verified := VerifyOf(h, bundles, digest);
    if verified.Failure? then Fetching(verified, None)
    else if !destinationAllowed then Fetching(Failure(BadDestination), None)
    else if copied.None? then Fetching(Failure(CopyFailed), None)
    else if HashOf(h, copied.value).Failure? then Fetching(Failure(HashOf(h, copied.value).error), None)
    else if HashOf(h, copied.value).value.digest != digest then Fetching(Failure(DigestMismatch), None)
    else Fetching(verified, copied)
  }

  lemma ReadDigest(bundles: map<string, Stored>, digest: string)
    ensures ReadDescriptor(bundles, digest).Success? ==> ReadDescriptor(bundles, digest).value.digest == digest
  {}

  lemma VerifiedDigest(h: string -> string, bundles: map<string, Stored>, digest: string)
    ensures VerifyOf(h, bundles, digest).Success? ==> VerifyOf(h, bundles, digest).value.digest == digest
    ensures VerifyOf(h, bundles, digest) == Failure(NotFound) ==> ParseDigest(digest).Some?
  {}

  // The copy in the temporary directory can take the descriptor and go to the store.
  predicate Storable(h: string -> string, digest: string, copied: Option<seq<Child>>) {
    copied.Some? && HashOf(h, copied.value).Success? && HashOf(h, copied.value).value.digest == digest && !MarkerIsDir(copied.value)
  }

  /**
   * Publish succeeds exactly when the source hashes and its bundle verifies in
   * the store, or is absent and a storable copy meets a free place or another
   * publisher's descriptor; it stores exactly the copy, and what it returns
   * always carries the digest of the source.
   */
  lemma {:induction false} PublishesExactly(h: string -> string, root: string, bundles: map<string, Stored>, source: Source, copied: Option<seq<Child>>,
                                            meanwhile: map<string, Stored>, now: Time)
    ensures var p := PublishOf(h, root, bundles, source, copied, meanwhile, now);
      && (p.result.Success? <==>
            && Trim(root) != "" && source.Directory? && HashOf(h, source.children).Success?
            && var digest := HashOf(h, source.children).value.digest;
              || VerifyOf(h, bundles, digest).Success?
              || (VerifyOf(h, bundles, digest) == Failure(NotFound) && Storable(h, digest, copied)
                  && (IsFree(meanwhile, KeyOf(digest)) || ReadDescriptor(meanwhile, digest).Success?)))
      && (p.result.Success? ==> p.result.value.digest == HashOf(h, source.children).value.digest)
      && (p.created <==> (p.result.Success?
            && VerifyOf(h, bundles, p.result.value.digest).Failure? && IsFree(meanwhile, KeyOf(p.result.value.digest))))
      && (p.created ==>
            && copied.Some? && MarkerIsPlain(copied.value) && ParseDigest(p.result.value.digest).Some?
            && p.result.value.uri == "execution-bundle://sha256/" + KeyOf(p.result.value.digest) && p.result.value.createdAt == now
            && p.bundles == meanwhile[KeyOf(p.result.value.digest) := Stored(Erase(copied.value), Present(p.result.value))]
            && HashOf(h, source.children).value == HashResult(p.result.value.digest, p.result.value.fileCount, p.result.value.sizeBytes))
      && (!p.created ==> p.bundles == bundles || p.bundles == meanwhile)
  {
    hide HashOf, ReadDescriptor, ParseDigest, VerifyOf, Trim;
    if source.Directory? && HashOf(h, source.children).Success? {
      var digest := HashOf(h, source.children).value.digest;
      VerifiedDigest(h, bundles, digest);
      ReadDigest(meanwhile, digest);
    }
  }

  /** FetchTo succeeds exactly when the stored bundle verifies, the destination is allowed and the copy has the digest; only then is the destination replaced. */
  lemma FetchesExactly(h: string -> string, bundles: map<string, Stored>, digest: string, destinationAllowed: bool, copied: Option<seq<Child>>)
    ensures var f := FetchOf(h, bundles, digest, destinationAllowed, copied);
      && (f.result.Success? <==> (VerifyOf(h, bundles, digest).Success? && destinationAllowed && copied.Some?
            && HashOf(h, copied.value).Success? && HashOf(h, copied.value).value.digest == digest))
      && f.destination == (if f.result.Success? then copied else None)
      && (f.result.Success? ==> f.result == VerifyOf(h, bundles, digest) && f.result.value.digest == digest)
  {
  }

  /**
   * The artifact store. What copyTree makes of a directory, and what others do
   * to the store between two steps, are arguments: nothing below trusts them.
   */
  class LocalStore {
    const root: string
    const h: string -> string
    var bundles: map<string, Stored>

    constructor (root: string, h: string -> string)
      ensures bundles == map[] && this.root == root && this.h == h
    {
      this.root, this.h, bundles := root, h, map[];
    }

    method Verify(digest: string) returns (r: Result<Descriptor, BundleError>)
      ensures r == VerifyOf(h, bundles, digest)
    {
      hide HashOf;
      var read := ReadDescriptor(bundles, digest);
      if read.Failure? {
        return read;
      }
      var hash := HashTree(h, bundles[ParseDigest(digest).value].children);
      if hash.Failure? {
        return Failure(hash.error);
      }
      if hash.value.digest != digest {
        return Failure(DigestMismatch);
      }
      if read.value.fileCount != hash.value.fileCount || read.value.sizeBytes != hash.value.sizeBytes {
        return Failure(CountMismatch);
      }
      r := read;
    }

    method Publish(source: Source, copied: Option<seq<Child>>, meanwhile: map<string, Stored>, now: Time)
      returns (r: Result<Descriptor, BundleError>, created: bool)
      modifies this
      ensures Publication(r, created, bundles) == PublishOf(h, root, old(bundles), source, copied, meanwhile, now)
    {
      hide HashOf, ReadDescriptor, ParseDigest;
      created := false;
      if Trim(root) == "" {
        return Failure(RootRequired), created;
      }
      if !source.Directory? {
        return Failure(if source.NoSource? then NotFound else NotADirectory), created;
      }
      var hash := HashTree(h, source.children);
      if hash.Failure? {
        return Failure(hash.error), created;
      }
      var digest := hash.value.digest;
      var existing := Verify(digest);
      if existing.Success? {
        return existing, created;
      }
      if existing.error != NotFound {
        return existing, created;
      }
      if copied.None? {
        return Failure(CopyFailed), created;
      }
      var copiedHash := HashTree(h, copied.value);
      if copiedHash.Failure? {
        return Failure(copiedHash.error), created;
      }
      if copiedHash.value.digest != digest {
        return Failure(DigestMismatch), created;
      }
      if MarkerIsDir(copied.value) {
        return Failure(DescriptorNotWritten), created;
      }
      var key := KeyOf(digest);
      var descriptor := Descriptor(digest, "execution-bundle://sha256/" + key, now, hash.value.fileCount, hash.value.sizeBytes);
      bundles := meanwhile;
      if !IsFree(bundles, key) {
        var raced := ReadDescriptor(bundles, digest);
        if raced.Success? {
          return raced, created;
        }
        return Failure(DescriptorNotWritten), created;
      }
      bundles := bundles[key := Stored(Erase(copied.value), Present(descriptor))];
      created := true;
      r := Success(descriptor);
    }

    method FetchTo(digest: string, destinationAllowed: bool, copied: Option<seq<Child>>)
      returns (r: Result<Descriptor, BundleError>, destination: Option<seq<Child>>)
      ensures Fetching(r, destination) == FetchOf(h, bundles, digest, destinationAllowed, copied)
    {
      hide HashOf;
      destination := None;
      var verified := Verify(digest);
      if verified.Failure? {
        return verified, destination;
      }
      if !destinationAllowed {
        return Failure(BadDestination), destination;
      }
      if copied.None? {
        return Failure(CopyFailed), destination;
      }
      var hash := HashTree(h, copied.value);
      if hash.Failure? {
        return Failure(hash.error), destination;
      }
      if hash.value.digest != digest {
        return Failure(DigestMismatch), destination;
      }
      destination := copied;
      r := verified;
    }
  }

  /** Two different byte streams with the same hash. */
  predicate Collides(h: string -> string, x: string, y: string) {
    x != y && h(x) == h(y)
  }

  /** Digests are equal exactly for the same directory, descriptor apart, or when the hash collides on the two streams. */
  lemma {:induction false} EqualDigestsMeanEqualTrees(h: string -> string, a: seq<Child>, b: seq<Child>)
    requires WellFormed(a) && WellFormed(b) && HashOf(h, a).Success? && HashOf(h, b).Success?
    ensures HashOf(h, a).value.digest == HashOf(h, b).value.digest <==> SameTree(a, b) || Collides(h, Stream(Hashed(a)), Stream(Hashed(b)))
  {
    var x, y := Stream(Hashed(a)), Stream(Hashed(b));
    assert ("sha256:" + h(x))[7..] == h(x) && ("sha256:" + h(y))[7..] == h(y);
    EqualStreamsMeanEqualTrees(a, b);
  }

  /**
   * End to end: once a directory was published, whether this call stored it or
   * found it stored, and whatever the store then became, a later fetch of its
   * digest that succeeds leaves that very directory at its destination, or a
   * collision of the hash is at hand.
   */
  lemma {:induction false} FetchedIsPublished(h: string -> string, root: string, bundles: map<string, Stored>, source: Source, copied: Option<seq<Child>>,
                                              meanwhile: map<string, Stored>, now: Time,
                                              later: map<string, Stored>, destinationAllowed: bool, fetched: Option<seq<Child>>)
    requires source.Directory? && WellFormed(source.children) && (fetched.Some? ==> WellFormed(fetched.value))
    requires var p := PublishOf(h, root, bundles, source, copied, meanwhile, now);
      p.result.Success? && FetchOf(h, later, p.result.value.digest, destinationAllowed, fetched).result.Success?
    ensures var p := PublishOf(h, root, bundles, source, copied, meanwhile, now);
      var destination := FetchOf(h, later, p.result.value.digest, destinationAllowed, fetched).destination;
      && destination.Some?
      && (SameTree(destination.value, source.children)
          || Collides(h, Stream(Hashed(destination.value)), Stream(Hashed(source.children))))
  {
    hide HashOf;
    PublishesExactly(h, root, bundles, source, copied, meanwhile, now);
    EqualDigestsMeanEqualTrees(h, fetched.value, source.children);
  }

  /**
   * And it does succeed: a directory that was stored and left alone is fetched
   * with its descriptor by any copy that is faithful, unless the hash collides.
   */
  lemma {:induction false} PublishedCanBeFetched(h: string -> string, root: string, bundles: map<string, Stored>, source: Source, copied: seq<Child>,
                                                 meanwhile: map<string, Stored>, now: Time, fetched: seq<Child>)
    requires WellFormed(copied) && WellFormed(fetched) && SameTree(fetched, copied)
    requires PublishOf(h, root, bundles, source, Some(copied), meanwhile, now).created
    ensures var p := PublishOf(h, root, bundles, source, Some(copied), meanwhile, now);
      || FetchOf(h, p.bundles, p.result.value.digest, true, Some(fetched)) == Fetching(p.result, Some(fetched))
      || Collides(h, Stream(Hashed(source.children)), Stream(Hashed(copied)))
  {
    HashedExactly(fetched, copied);
    assert HashOf(h, fetched) == HashOf(h, copied);
    hide HashOf;
    var p := PublishOf(h, root, bundles, source, Some(copied), meanwhile, now);
    PublishesExactly(h, root, bundles, source, Some(copied), meanwhile, now);
    PublishedVerifies(h, source.children, copied, p.bundles, p.result.value);
  }

  /** A tree just published verifies, and a faithful copy of it can be fetched, unless the hash collides. */
  lemma {:induction false} PublishedVerifies(h: string -> string, source: seq<Child>, copied: seq<Child>, bundles: map<string, Stored>, d: Descriptor)
    requires WellFormed(copied) && MarkerIsPlain(copied) && HashOf(h, source).Success? && HashOf(h, copied).Success?
    requires HashOf(h, source).value == HashResult(d.digest, d.fileCount, d.sizeBytes) && HashOf(h, copied).value.digest == d.digest
    requires ParseDigest(d.digest).Some? && ParseDigest(d.digest).value in bundles
    requires bundles[ParseDigest(d.digest).value] == Stored(Erase(copied), Present(d))
    ensures || VerifyOf(h, bundles, d.digest) == Success(d)
            || Collides(h, Stream(Hashed(source)), Stream(Hashed(copied)))
  {
    var x, y := Stream(Hashed(source)), Stream(Hashed(copied));
    assert h(x) == ("sha256:" + h(x))[7..] == ("sha256:" + h(y))[7..] == h(y);
    if x == y {
      EqualStreams(Hashed(source), Hashed(copied));
      HashedErased(copied);
      hide Hashed, Stream, ParseDigest, FileCount, SizeBytes, Erase;
    }
  }

  lemma {:induction false} HashedErased(children: seq<Child>)
    requires WellFormed(children) && MarkerIsPlain(children)
    ensures Hashed(Erase(children)) == Hashed(children)
  {
    EraseKeepsForm(children);
    EraseTwice(children);
    HiddenKeepsForm(children);
    HiddenKeepsForm(Erase(children));
    HashedExactly(children, Erase(children));
  }

  lemma {:induction false} EraseTwice(children: seq<Child>)
    ensures Erase(Erase(children)) == Erase(children)
  {
    if children != [] {
      EraseTwice(children[1..]);
      assert [] + Erase(children[1..]) == Erase(children[1..]);
      assert ([children[0]] + Erase(children[1..]))[1..] == Erase(children[1..]);
    }
  }

  // The rules in full.

  /** A digest names a bundle exactly when, trimmed, it is "sha256:" and 64 hexadecimal digits. */
  lemma DigestExactly(digest: string, key: string)
    ensures ParseDigest(digest) == Some(key) <==> Trim(digest) == "sha256:" + key && |key| == 64 && forall c | c in key :: '0' <= c <= '9' || 'a' <= c <= 'f' || 'A' <= c <= 'F'
  {
    var text := Trim(digest);
    hide Trim;
    FirstColon(text);
    if text == "sha256:" + key {
      assert text[6] == ':' && forall i | 0 <= i < 6 :: text[i] == "sha256"[i] != ':';
      assert IndexOf(text, ':') == 6;
      assert text[..6] == "sha256" && text[7..] == key;
    }
    if ParseDigest(digest) == Some(key) {
      var colon := IndexOf(text, ':');
      assert text == text[..colon] + [text[colon]] + text[colon + 1..];
      assert text == "sha256" + ":" + key == "sha256:" + key;
    }
  }

  lemma {:induction false} FirstColon(s: string)
    ensures forall i | 0 <= i < IndexOf(s, ':') :: s[i] != ':'
  {
    if s != "" && s[0] != ':' {
      FirstColon(s[1..]);
      assert forall i | 0 < i < |s| :: s[i] == s[1..][i - 1];
    }
  }

  /** The file count is the number of entries that are no directories. */
  lemma {:induction false} FilesAreCounted(entries: seq<Entry>)
    ensures FileCount(entries) == |set i | 0 <= i < |entries| && !entries[i].kind.IsDir?|
  {
    if entries != [] {
      var n := |entries| - 1;
      var front, last := entries[..n], entries[n];
      FilesAreCounted(front);
      var before := set i | 0 <= i < n && !front[i].kind.IsDir?;
      var after := set i | 0 <= i < |entries| && !entries[i].kind.IsDir?;
      forall i ensures i in after <==> i in before || (i == n && !last.kind.IsDir?) { if 0 <= i < n { assert entries[i] == front[i]; } }
      assert n !in before;
      if last.kind.IsDir? { assert after == before; } else { assert after == before + {n}; }
    }
  }

  /** The size is the sum of what the files hold. */
  lemma {:induction false} SizesAdd(a: seq<Entry>, b: seq<Entry>)
    ensures SizeBytes(a + b) == SizeBytes(a) + SizeBytes(b)
    decreases |b|
  {
    if b == [] {
      assert a + b == a;
    } else {
      var n := |b| - 1;
      SizesAdd(a, b[..n]);
      assert (a + b)[..|a + b| - 1] == a + b[..n] && (a + b)[|a + b| - 1] == b[n];
    }
  }

  lemma SizeOfOne(e: Entry)
    ensures SizeBytes([e]) == if e.kind.IsFile? then |e.kind.contents| else 0
  {
    assert [e][..0] == [];
  }

  // What is stored under the digest, with the descriptor filed with it.
  predicate Holds(bundles: map<string, Stored>, digest: string, children: seq<Child>, d: Descriptor) {
    exists key :: key in bundles && ParseDigest(digest) == Some(key) && bundles[key] == Stored(children, Present(d))
  }

  /** A bundle verifies exactly when a tree is stored with a descriptor for that digest, hashes to it, and has the file count and size the descriptor says. */
  lemma VerifiesExactly(h: string -> string, bundles: map<string, Stored>, digest: string, d: Descriptor)
    ensures VerifyOf(h, bundles, digest) == Success(d) <==>
      exists children :: Holds(bundles, digest, children, d) && d.digest == digest && HashOf(h, children) == Success(HashResult(digest, d.fileCount, d.sizeBytes))
  {
    hide HashOf, ParseDigest;
    var key := ParseDigest(digest);
    if VerifyOf(h, bundles, digest) == Success(d) {
      var children := bundles[key.value].children;
      assert Holds(bundles, digest, children, d) && HashOf(h, children) == Success(HashResult(digest, d.fileCount, d.sizeBytes));
    }
  }

  // Known answers.

  lemma OctalModes()
    ensures Digits(420, 8) == "644" && Digits(511, 8) == "777" && Digits(493, 8) == "755"
  {
    assert Digits(6, 8) == "6" && Digits(52, 8) == "64";
    assert Digits(7, 8) == "7" && Digits(63, 8) == "77" && Digits(61, 8) == "75";
  }

  lemma Lengths()
    ensures Decimal(1) == "1" && Decimal(3) == "3" && Decimal(4) == "4" && Decimal(5) == "5" && Decimal(7) == "7"
  {}

  /** A field is its length in decimal, a colon, the text and a NUL. */
  lemma FieldExactly(value: string)
    ensures Field(value) == Decimal(|value|) + ":" + value + "\0"
  {}

  /** What is hashed of a file, a link and a directory, byte by byte: path, mode in octal, kind, and what it holds. */
  lemma EncodesAs()
    ensures Encode(Entry("a.txt", 420, IsFile("hello"))) == "5:a.txt\0" + "3:644\0" + ("4:file\0" + "1:5\0" + "hello")
    ensures Encode(Entry("d/l", 511, IsLink("a.txt"))) == "3:d/l\0" + "3:777\0" + ("7:symlink\0" + "5:a.txt\0")
    ensures Encode(Entry("d", 493, IsDir)) == "1:d\0" + "3:755\0" + "3:dir\0"
  {
    OctalModes();
    Lengths();
    hide Digits, Decimal, Field;
    FieldExactly("a.txt");
    FieldExactly("644");
    FieldExactly("file");
    FieldExactly("5");
    FieldExactly("d/l");
    FieldExactly("777");
    FieldExactly("symlink");
    FieldExactly("d");
    FieldExactly("755");
    FieldExactly("dir");
  }

  /** A directory comes before what is in it, under paths that name the way. */
  lemma WalksAs(a: Child, d: Child, l: Child)
    requires a == Child("a.txt", File(420, "hello")) && l == Child("l", Link(511, "a.txt")) && d == Child("d", Dir(493, [l]))
    ensures Walk("", [a, d]) == [Entry("a.txt", 420, IsFile("hello")), Entry("d", 493, IsDir), Entry("d/l", 511, IsLink("a.txt"))]
  {
    assert "" + "a.txt" == "a.txt" && "" + "d" + "/" == "d/" && "d/" + "l" == "d/l" && "" + "d" == "d";
    assert [l][1..] == [] && Walk("d/", [l]) == [Entry("d/l", 511, IsLink("a.txt"))];
    assert [d][1..] == [] && Walk("", [d]) == [Entry("d", 493, IsDir)] + Walk("d/", [l]);
    assert [a, d][1..] == [d];
  }
}
