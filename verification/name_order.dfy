/** Names in order, as an answer lists them: by their characters' code points,
    which is the order of their UTF-8 bytes. */
module NameOrder {
  /** `a` comes strictly before `b`. */
  predicate Before(a: string, b: string)
    decreases |a|
  {
    b != [] && (a == [] || a[0] < b[0] || (a[0] == b[0] && Before(a[1..], b[1..])))
  }

  lemma {:induction false} Total(a: string, b: string)
    requires a != b
    ensures Before(a, b) || Before(b, a)
    decreases |a|
  {
    if a != [] && b != [] && a[0] == b[0] {
      assert a == [a[0]] + a[1..] && b == [b[0]] + b[1..];
      Total(a[1..], b[1..]);
    }
  }

  lemma {:induction false} Follows(a: string, b: string, c: string)
    requires Before(a, b) && Before(b, c)
    ensures Before(a, c)
    decreases |a|
  {
    if a != [] && a[0] == b[0] == c[0] { Follows(a[1..], b[1..], c[1..]); }
  }

  lemma {:induction false} NotBeforeItself(a: string)
    ensures !Before(a, a)
    decreases |a|
  {
    if a != [] { NotBeforeItself(a[1..]); }
  }

  ghost predicate Ascending(names: seq<string>) {
    forall i, j | 0 <= i < j < |names| :: Before(names[i], names[j])
  }

  /** An ascending list holds no name twice. */
  lemma AscendingIsDistinct(names: seq<string>)
    requires Ascending(names)
    ensures forall i, j | 0 <= i < j < |names| :: names[i] != names[j]
  {
    forall i, j | 0 <= i < j < |names| ensures names[i] != names[j] { NotBeforeItself(names[i]); }
  }

  /** A set has one ascending list. */
  lemma {:induction false} OneOrder(a: seq<string>, b: seq<string>)
    requires Ascending(a) && Ascending(b) && forall t :: t in a <==> t in b
    ensures a == b
    decreases |a|
  {
    assert (a != [] ==> a[0] in b) && (b != [] ==> b[0] in a);
    if a != [] && b != [] {
      FirstIsFirst(a, b);
      forall t ensures t in a[1..] <==> t in b[1..] { RestHolds(a, b, t); }
      OneOrder(a[1..], b[1..]);
      assert a == [a[0]] + a[1..] && b == [b[0]] + b[1..];
    }
  }

  lemma FirstIsFirst(a: seq<string>, b: seq<string>)
    requires Ascending(a) && Ascending(b) && a != [] && b != [] && a[0] in b && b[0] in a
    ensures a[0] == b[0]
  {
    if a[0] != b[0] {
      assert Before(b[0], a[0]) && Before(a[0], b[0]);
      Follows(a[0], b[0], a[0]);
      NotBeforeItself(a[0]);
    }
  }

  lemma RestHolds(a: seq<string>, b: seq<string>, t: string)
    requires Ascending(a) && Ascending(b) && a != [] && b != [] && a[0] == b[0] && (t in a <==> t in b)
    ensures t in a[1..] <==> t in b[1..]
  {
    AscendingIsDistinct(a);
    AscendingIsDistinct(b);
    if t == a[0] {
      assert t !in a[1..] && t !in b[1..];
    } else {
      assert t in a <==> t in a[1..];
      assert t in b <==> t in b[1..];
    }
  }

  lemma InsertAscends(names: seq<string>, k: nat, x: string)
    requires Ascending(names) && k <= |names| && x !in names
    requires forall i | 0 <= i < k :: Before(names[i], x)
    requires k < |names| ==> !Before(names[k], x)
    ensures Ascending(names[..k] + [x] + names[k..])
  {
    var l := names[..k] + [x] + names[k..];
    if k < |names| {
      Total(names[k], x);
      forall j | k < j < |names| ensures Before(x, names[j]) { Follows(x, names[k], names[j]); }
    }
    forall i, j | 0 <= i < j < |l| ensures Before(l[i], l[j]) {
      if i < k < j {
        assert l[i] == names[i] && l[j] == names[j - 1];
      }
    }
  }

  method Sorted(names: set<string>) returns (l: seq<string>)
    ensures Ascending(l) && |l| == |names| && forall t :: t in l <==> t in names
  {
    l := [];
    var rest := names;
    while rest != {}
      invariant rest <= names && Ascending(l) && |l| + |rest| == |names|
      invariant forall t :: t in l <==> t in names - rest
      decreases |rest|
    {
      var x :| x in rest;
      var k := 0;
      while k < |l| && Before(l[k], x)
        invariant k <= |l| && forall i | 0 <= i < k :: Before(l[i], x)
      {
        k := k + 1;
      }
      InsertAscends(l, k, x);
      Inserted(l, k, x);
      rest := rest - {x};
      l := l[..k] + [x] + l[k..];
    }
  }

  lemma Inserted(names: seq<string>, k: nat, x: string)
    requires k <= |names|
    ensures forall t :: t in names[..k] + [x] + names[k..] <==> t == x || t in names
  {
    assert names == names[..k] + names[k..];
  }
}
