/**
 The order in which the source's `BTreeMap`s iterate: keys ascending.
 */
module Ordering {

  ghost predicate StrictTotal<T(!new)>(less: (T, T) -> bool) {
    && (forall a :: !less(a, a))
    && (forall a, b, c :: less(a, b) && less(b, c) ==> less(a, c))
    && (forall a, b :: a == b || less(a, b) || less(b, a))
  }

  ghost predicate Ascending<T>(s: seq<T>, less: (T, T) -> bool) {
    forall i, j :: 0 <= i < j < |s| ==> less(s[i], s[j])
  }

  function IntLess(): (int, int) -> bool {
    (a: int, b: int) => a < b
  }

  /** `String`'s order: the first character that differs decides, and a prefix comes first. */
  predicate StringLess(a: string, b: string) {
    && b != []
    && (a == [] || a[0] < b[0] || (a[0] == b[0] && StringLess(a[1..], b[1..])))
  }

  function TextLess(): (string, string) -> bool {
    (a: string, b: string) => StringLess(a, b)
  }

  lemma IntLessIsTotal()
    ensures StrictTotal(IntLess())
  {
  }

  lemma {:induction false} StringIrreflexive(a: string)
    ensures !StringLess(a, a)
  {
    if a != [] {
      StringIrreflexive(a[1..]);
    }
  }

  lemma {:induction false} StringTransitive(a: string, b: string, c: string)
    requires StringLess(a, b) && StringLess(b, c)
    ensures StringLess(a, c)
  {
    if a != [] && a[0] == b[0] == c[0] {
      StringTransitive(a[1..], b[1..], c[1..]);
    }
  }

  lemma {:induction false} StringConnected(a: string, b: string)
    ensures a == b || StringLess(a, b) || StringLess(b, a)
  {
    if a != [] && b != [] && a[0] == b[0] {
      StringConnected(a[1..], b[1..]);
      assert a == [a[0]] + a[1..] && b == [b[0]] + b[1..];
    }
  }

  /** Strings are totally ordered. */
  lemma TextLessIsTotal()
    ensures StrictTotal(TextLess())
  {
    var less := TextLess();
    forall a ensures !less(a, a) { StringIrreflexive(a); }
    forall a, b, c | less(a, b) && less(b, c) ensures less(a, c) { StringTransitive(a, b, c); }
    forall a, b ensures a == b || less(a, b) || less(b, a) { StringConnected(a, b); }
  }

  lemma {:induction false} LeastExists<T(!new)>(keys: set<T>, less: (T, T) -> bool) returns (least: T)
    requires StrictTotal(less) && keys != {}
    ensures least in keys && forall k :: k in keys && k != least ==> less(least, k)
    decreases keys
  {
    var x :| x in keys;
    var rest := keys - {x};
    assert forall k :: k in keys ==> k == x || k in rest;
    if rest == {} {
      least := x;
    } else {
      var y := LeastExists(rest, less);
      least := if less(x, y) then x else y;
      assert less(x, y) || less(y, x);
    }
  }

  /** The keys of a map in the order a `BTreeMap` iterates over them. */
  method AscendingKeys<T(==,!new)>(keys: set<T>, less: (T, T) -> bool) returns (r: seq<T>)
    requires StrictTotal(less)
    ensures Ascending(r, less)
    ensures forall k :: k in r <==> k in keys
  {
    r := [];
    var rest := keys;
    while rest != {}
      invariant rest <= keys
      invariant Ascending(r, less)
      invariant forall k :: k in r <==> k in keys - rest
      invariant forall i, k :: 0 <= i < |r| && k in rest ==> less(r[i], k)
      decreases rest
    {
      ghost var least := LeastExists(rest, less);
      var next :| next in rest && forall k :: k in rest && k != next ==> less(next, k);
      r := r + [next];
      rest := rest - {next};
    }
  }
}
