/** Small shared vocabulary: optional values, results, text and sorting. */
module Wrappers {
  datatype Option<+T> = None | Some(value: T)

  datatype Result<+T, +E> = Success(value: T) | Failure(error: E)
}

/** The string handling the stores rely on. */
module Text {
  const DEFAULT_WORKSPACE := "default"

  // Go's unicode.IsSpace.
  predicate IsSpace(c: char) {
    var n := c as int;
    || 9 <= n <= 13 || n == 0x20 || n == 0x85 || n == 0xA0 || n == 0x1680
    || 0x2000 <= n <= 0x200A || n == 0x2028 || n == 0x2029 || n == 0x202F || n == 0x205F || n == 0x3000
  }

  function TrimLeft(s: string): string {
    if s != "" && IsSpace(s[0]) then TrimLeft(s[1..]) else s
  }

  function TrimRight(s: string): string {
    if s != "" && IsSpace(s[|s| - 1]) then TrimRight(s[..|s| - 1]) else s
  }

  function Trim(s: string): string {
    TrimRight(TrimLeft(s))
  }

  function NormalizeWorkspace(value: string): string {
    if Trim(value) == "" then DEFAULT_WORKSPACE else Trim(value)
  }

  lemma {:induction false} TrimRightKeepsFirst(s: string)
    ensures TrimRight(s) <= s
  {
    if s != "" && IsSpace(s[|s| - 1]) {
      TrimRightKeepsFirst(s[..|s| - 1]);
    }
  }

  lemma {:induction false} TrimLeftStops(s: string)
    ensures TrimLeft(s) == "" || !IsSpace(TrimLeft(s)[0])
  {
    if s != "" && IsSpace(s[0]) {
      TrimLeftStops(s[1..]);
    }
  }

  lemma {:induction false} TrimRightStops(s: string)
    ensures TrimRight(s) == "" || !IsSpace(TrimRight(s)[|TrimRight(s)| - 1])
  {
    if s != "" && IsSpace(s[|s| - 1]) {
      TrimRightStops(s[..|s| - 1]);
    }
  }

  lemma TrimTwice(s: string)
    ensures Trim(Trim(s)) == Trim(s)
  {
    var left := TrimLeft(s);
    TrimLeftStops(s);
    TrimRightKeepsFirst(left);
    TrimRightStops(left);
  }

  lemma {:induction false} TrimLeftShrinks(s: string)
    ensures |TrimLeft(s)| <= |s|
  {
    if s != "" && IsSpace(s[0]) {
      TrimLeftShrinks(s[1..]);
    }
  }

  /** Text is trimmed exactly when no space stands at either end. */
  lemma TrimmedEnds(s: string)
    requires s != ""
    ensures Trim(s) == s <==> !IsSpace(s[0]) && !IsSpace(s[|s| - 1])
  {
    TrimLeftShrinks(s[1..]);
    TrimLeftStops(s);
    TrimRightKeepsFirst(TrimLeft(s));
    TrimRightStops(TrimLeft(s));
  }

  // t is s without the spaces around it.
  predicate IsTrimmed(s: string, t: string, i: nat, j: nat) {
    && i <= j <= |s| && t == s[i..j]
    && (forall k | 0 <= k < i :: IsSpace(s[k])) && (forall k | j <= k < |s| :: IsSpace(s[k]))
    && (t != "" ==> !IsSpace(t[0]) && !IsSpace(t[|t| - 1]))
  }

  lemma {:induction false} TrimLeftDrops(s: string) returns (i: nat)
    ensures i <= |s| && TrimLeft(s) == s[i..] && forall k | 0 <= k < i :: IsSpace(s[k])
  {
    if s != "" && IsSpace(s[0]) {
      var rest := TrimLeftDrops(s[1..]);
      i := rest + 1;
      forall k | 0 <= k < i ensures IsSpace(s[k]) { if k > 0 { assert s[k] == s[1..][k - 1]; } }
    } else {
      i := 0;
    }
  }

  lemma {:induction false} TrimRightDrops(s: string) returns (j: nat)
    ensures j <= |s| && TrimRight(s) == s[..j] && forall k | j <= k < |s| :: IsSpace(s[k])
  {
    if s != "" && IsSpace(s[|s| - 1]) {
      j := TrimRightDrops(s[..|s| - 1]);
      assert s[..|s| - 1][..j] == s[..j];
      forall k | j <= k < |s| ensures IsSpace(s[k]) { if k < |s| - 1 { assert s[k] == s[..|s| - 1][k]; } }
    } else {
      j := |s|;
      assert s[..j] == s;
    }
  }

  /** Trimming takes the spaces at both ends and nothing else. */
  lemma TrimExactly(s: string)
    ensures exists i, j :: IsTrimmed(s, Trim(s), i, j)
  {
    var left := TrimLeft(s);
    var i := TrimLeftDrops(s);
    var n := TrimRightDrops(left);
    TrimLeftStops(s);
    TrimRightStops(left);
    assert left[..n] == s[i..i + n];
    forall k | i + n <= k < |s| ensures IsSpace(s[k]) { assert s[k] == left[k - i]; }
    assert IsTrimmed(s, Trim(s), i, i + n);
  }

  /** Normalising a workspace name is idempotent, and never yields the empty name. */
  lemma NormalizeTwice(value: string)
    ensures NormalizeWorkspace(NormalizeWorkspace(value)) == NormalizeWorkspace(value) != ""
  {
    TrimTwice(value);
    assert Trim(DEFAULT_WORKSPACE) == DEFAULT_WORKSPACE;
  }

  /** Digits of n in the given base, most significant first: strconv.FormatUint. */
  function Digits(n: nat, base: nat): string
    requires 2 <= base <= 10
  {
    var last := [(('0' as int) + n % base) as char];
    if n < base then last else Digits(n / base, base) + last
  }

  /** strconv.Itoa. */
  function Decimal(n: int): string {
    if n < 0 then "-" + Digits(-n, 10) else Digits(n, 10)
  }

  function FirstNonEmpty(values: seq<string>): string {
    if values == [] then "" else if values[0] != "" then values[0] else FirstNonEmpty(values[1..])
  }

  lemma {:induction false} FirstOrRest(first: string, rest: seq<string>)
    ensures FirstNonEmpty([first] + rest) == if first != "" then first else FirstNonEmpty(rest)
  {
    assert ([first] + rest)[1..] == rest;
  }

  /** Go's string order. */
  predicate Less(a: string, b: string) {
    b != "" && (a == "" || a[0] < b[0] || (a[0] == b[0] && Less(a[1..], b[1..])))
  }

  /** One text is less than another when it is a proper beginning of it, or has the lesser character where they first differ. */
  lemma {:induction false} LessExactly(a: string, b: string)
    ensures Less(a, b) <==> a < b || exists i: nat :: i < |a| && i < |b| && a[..i] == b[..i] && a[i] < b[i]
  {
    if a != "" && b != "" && a[0] == b[0] {
      var a', b' := a[1..], b[1..];
      LessExactly(a', b');
      assert a == [a[0]] + a' && b == [b[0]] + b';
      assert a < b <==> a' < b';
      if i: nat :| i < |a'| && i < |b'| && a'[..i] == b'[..i] && a'[i] < b'[i] {
        assert a[..i + 1] == [a[0]] + a'[..i] && b[..i + 1] == [b[0]] + b'[..i] && a[i + 1] < b[i + 1];
      }
      if i: nat :| i < |a| && i < |b| && a[..i] == b[..i] && a[i] < b[i] {
        assert i > 0 && a'[..i - 1] == a[..i][1..] && b'[..i - 1] == b[..i][1..] && a'[i - 1] < b'[i - 1];
      }
    } else if a != "" && b != "" && a[0] < b[0] {
      assert a[..0] == b[..0];
    }
  }

  lemma {:induction false} LessIsTotal(a: string, b: string)
    ensures Less(a, b) || Less(b, a) <==> a != b
    ensures !(Less(a, b) && Less(b, a))
  {
    if a != "" && b != "" && a[0] == b[0] {
      LessIsTotal(a[1..], b[1..]);
      assert a == [a[0]] + a[1..] && b == [b[0]] + b[1..];
    }
  }

  lemma {:induction false} LessIsTransitive(a: string, b: string, c: string)
    requires Less(a, b) && Less(b, c)
    ensures Less(a, c)
  {
    if a != "" && a[0] == b[0] && b[0] == c[0] {
      LessIsTransitive(a[1..], b[1..], c[1..]);
    }
  }
}

/** What sort.Slice and sort.Strings promise, as an insertion sort on values. */
module Sorting {
  /** A strict weak order, the demand Go's sort makes of its comparison. */
  ghost predicate StrictWeak<T(!new)>(less: (T, T) -> bool) {
    && (forall a, b :: less(a, b) ==> !less(b, a))
    && (forall a, b, c :: !less(b, a) && !less(c, b) ==> !less(c, a))
  }

  ghost predicate SortedBy<T(!new)>(xs: seq<T>, less: (T, T) -> bool) {
    forall i, k :: 0 <= i < k < |xs| ==> !less(xs[k], xs[i])
  }

  function Insert<T>(x: T, xs: seq<T>, less: (T, T) -> bool): seq<T> {
    if xs == [] || less(x, xs[0]) then [x] + xs else [xs[0]] + Insert(x, xs[1..], less)
  }

  function Sort<T>(xs: seq<T>, less: (T, T) -> bool): seq<T> {
    if xs == [] then [] else Insert(xs[0], Sort(xs[1..], less), less)
  }

  lemma {:induction false} InsertAdds<T>(x: T, xs: seq<T>, less: (T, T) -> bool)
    ensures multiset(Insert(x, xs, less)) == multiset(xs) + multiset{x}
  {
    if xs != [] && !less(x, xs[0]) {
      InsertAdds(x, xs[1..], less);
      assert xs == [xs[0]] + xs[1..];
      assert multiset(Insert(x, xs, less)) == multiset{xs[0]} + multiset(Insert(x, xs[1..], less));
    } else {
      assert multiset([x] + xs) == multiset{x} + multiset(xs);
    }
  }

  lemma {:induction false} InsertSorts<T(!new)>(x: T, xs: seq<T>, less: (T, T) -> bool)
    requires StrictWeak(less) && SortedBy(xs, less)
    ensures SortedBy(Insert(x, xs, less), less)
  {
    if xs != [] && !less(x, xs[0]) {
      InsertSorts(x, xs[1..], less);
      InsertAdds(x, xs[1..], less);
      var r := Insert(x, xs[1..], less);
      forall k | 0 <= k < |r| ensures !less(r[k], xs[0]) {
        assert r[k] in multiset(r);
        assert r[k] == x || r[k] in xs[1..];
      }
    }
  }

  /** Sorting permutes, and orders. */
  lemma {:induction false} SortSorts<T(!new)>(xs: seq<T>, less: (T, T) -> bool)
    ensures multiset(Sort(xs, less)) == multiset(xs)
    ensures StrictWeak(less) ==> SortedBy(Sort(xs, less), less)
  {
    if xs != [] {
      SortSorts(xs[1..], less);
      InsertAdds(xs[0], Sort(xs[1..], less), less);
      if StrictWeak(less) { InsertSorts(xs[0], Sort(xs[1..], less), less); }
      assert xs == [xs[0]] + xs[1..];
    }
  }

  lemma SameElements<T>(xs: seq<T>, ys: seq<T>)
    requires multiset(xs) == multiset(ys)
    ensures |xs| == |ys|
    ensures forall x :: x in xs <==> x in ys
  {
    assert |multiset(xs)| == |multiset(ys)|;
    forall x ensures x in xs <==> x in ys {
      assert x in xs <==> x in multiset(xs);
    }
  }

  ghost predicate Distinct<T(!new)>(xs: seq<T>) {
    forall i, k :: 0 <= i < k < |xs| ==> xs[i] != xs[k]
  }

  /** The elements of a finite set, as the Go code collects them into a slice. */
  ghost predicate Enumerates<T(!new)>(xs: seq<T>, s: set<T>) {
    && Distinct(xs)
    && (forall x :: x in xs <==> x in s)
  }

  lemma {:induction false} EnumerationLength<T(!new)>(xs: seq<T>, s: set<T>)
    requires Enumerates(xs, s)
    ensures |xs| == |s|
  {
    if xs == [] {
      assert s == {};
    } else {
      assert xs[0] in s;
      forall x ensures x in xs[1..] <==> x in s - {xs[0]} {
        if x in xs[1..] { assert x in xs; }
      }
      EnumerationLength(xs[1..], s - {xs[0]});
    }
  }

  lemma {:induction false} MultiplicityOfDistinct<T(!new)>(xs: seq<T>, x: T)
    requires Distinct(xs)
    ensures multiset(xs)[x] == if x in xs then 1 else 0
  {
    if xs != [] {
      MultiplicityOfDistinct(xs[1..], x);
      assert xs == [xs[0]] + xs[1..];
      if x == xs[0] { assert x !in xs[1..]; }
    }
  }

  lemma DistinctByMultiset<T(!new)>(xs: seq<T>)
    requires forall x :: multiset(xs)[x] <= 1
    ensures Distinct(xs)
  {
    forall i, k | 0 <= i < k < |xs| ensures xs[i] != xs[k] {
      assert xs == xs[..k] + [xs[k]] + xs[k + 1..];
      assert xs[i] in xs[..k];
      assert multiset(xs[..k])[xs[i]] >= 1;
      assert multiset(xs)[xs[k]] >= multiset(xs[..k])[xs[k]] + 1;
    }
  }

  /** Sorting an enumeration enumerates the same set, in order. */
  lemma {:induction false} SortEnumeration<T(!new)>(xs: seq<T>, s: set<T>, less: (T, T) -> bool)
    requires Enumerates(xs, s) && StrictWeak(less)
    ensures Enumerates(Sort(xs, less), s)
    ensures SortedBy(Sort(xs, less), less)
  {
    SortSorts(xs, less);
    SameElements(Sort(xs, less), xs);
    forall x ensures multiset(Sort(xs, less))[x] <= 1 { MultiplicityOfDistinct(xs, x); }
    DistinctByMultiset(Sort(xs, less));
  }
}
