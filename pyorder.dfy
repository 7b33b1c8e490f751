/** Python's ordering of sort keys: strings compare lexicographically by code
    point, tuples compare lexicographically element by element, and numbers
    (int and float alike) compare by value. */
module PyOrder {

  /** One element of a sort-key tuple: a number or a string. */
  datatype KeyPart = Num(n: real) | Str(s: string)

  /** A sort-key tuple. */
  type Key = seq<KeyPart>

  ghost predicate StrictTotalOrder<T(!new)>(less: (T, T) -> bool) {
    (forall x :: !less(x, x)) &&
    (forall x, y, z :: less(x, y) && less(y, z) ==> less(x, z)) &&
    (forall x, y :: x != y ==> less(x, y) || less(y, x))
  }

  /** Lexicographic comparison: the first position where the sequences differ
      decides; a proper prefix is smaller. */
  predicate LexLess<T(==)>(a: seq<T>, b: seq<T>, less: (T, T) -> bool) {
    if a == [] then b != []
    else if b == [] then false
    else if a[0] != b[0] then less(a[0], b[0])
    else LexLess(a[1..], b[1..], less)
  }

  lemma {:induction false} LexIrreflexive<T>(a: seq<T>, less: (T, T) -> bool)
    ensures !LexLess(a, a, less)
  {
    if a != [] {
      LexIrreflexive(a[1..], less);
    }
  }

  lemma {:induction false} LexTransitive<T(!new)>(a: seq<T>, b: seq<T>, c: seq<T>, less: (T, T) -> bool)
    requires StrictTotalOrder(less)
    requires LexLess(a, b, less) && LexLess(b, c, less)
    ensures LexLess(a, c, less)
  {
    if a != [] && a[0] == b[0] && b[0] == c[0] {
      LexTransitive(a[1..], b[1..], c[1..], less);
    }
  }

  lemma {:induction false} LexTotal<T(!new)>(a: seq<T>, b: seq<T>, less: (T, T) -> bool)
    requires StrictTotalOrder(less)
    requires a != b
    ensures LexLess(a, b, less) || LexLess(b, a, less)
  {
    if a != [] && b != [] && a[0] == b[0] {
      assert a == [a[0]] + a[1..] && b == [b[0]] + b[1..];
      LexTotal(a[1..], b[1..], less);
    }
  }

  predicate CharLess(a: char, b: char) {
    a < b
  }

  /** Python's `a < b` on strings. */
  predicate StrLess(a: string, b: string) {
    LexLess(a, b, CharLess)
  }

  /** Python's `a < b` on two key elements. A number and a string are never
      compared by the model's keys, because every column's keys have the same
      shape; numbers are put first so that the order is total. */
  predicate PartLess(a: KeyPart, b: KeyPart) {
    match (a, b)
    case (Num(x), Num(y)) => x < y
    case (Str(x), Str(y)) => StrLess(x, y)
    case (Num(_), Str(_)) => true
    case (Str(_), Num(_)) => false
  }

  /** Python's `a < b` on key tuples. */
  predicate KeyLess(a: Key, b: Key) {
    LexLess(a, b, PartLess)
  }

  lemma PartLessStrictTotal()
    ensures StrictTotalOrder(PartLess)
  {
    assert StrictTotalOrder(CharLess);
    forall x: KeyPart
      ensures !PartLess(x, x)
    {
      if x.Str? { LexIrreflexive(x.s, CharLess); }
    }
    forall x: KeyPart, y: KeyPart, z: KeyPart | PartLess(x, y) && PartLess(y, z)
      ensures PartLess(x, z)
    {
      if x.Str? && y.Str? && z.Str? { LexTransitive(x.s, y.s, z.s, CharLess); }
    }
    forall x: KeyPart, y: KeyPart | x != y
      ensures PartLess(x, y) || PartLess(y, x)
    {
      if x.Str? && y.Str? { LexTotal(x.s, y.s, CharLess); }
    }
  }

  /** Comparison of key tuples is a strict total order, so a stable sort by
      these keys has exactly one possible result. */
  lemma KeyLessStrictTotal()
    ensures StrictTotalOrder(KeyLess)
  {
    PartLessStrictTotal();
    forall a: Key
      ensures !KeyLess(a, a)
    {
      LexIrreflexive(a, PartLess);
    }
    forall a: Key, b: Key, c: Key | KeyLess(a, b) && KeyLess(b, c)
      ensures KeyLess(a, c)
    {
      LexTransitive(a, b, c, PartLess);
    }
    forall a: Key, b: Key | a != b
      ensures KeyLess(a, b) || KeyLess(b, a)
    {
      LexTotal(a, b, PartLess);
    }
  }

  /** Tuples that agree on their first element are ordered by the rest. */
  lemma KeyLessSameHead(p: KeyPart, a: Key, b: Key)
    ensures KeyLess([p] + a, [p] + b) <==> KeyLess(a, b)
  {
    assert ([p] + a)[1..] == a && ([p] + b)[1..] == b;
  }

  /** Tuples whose first elements differ are ordered by those elements. */
  lemma KeyLessDifferentHead(p: KeyPart, q: KeyPart, a: Key, b: Key)
    requires p != q
    ensures KeyLess([p] + a, [q] + b) <==> PartLess(p, q)
  {
  }

  /** A tuple is smaller when its first element is, or when the first
      elements are equal and the rest is smaller. */
  lemma KeyLessCons(p: KeyPart, q: KeyPart, a: Key, b: Key)
    ensures KeyLess([p] + a, [q] + b) <==> PartLess(p, q) || (p == q && KeyLess(a, b))
  {
    if p == q {
      KeyLessSameHead(p, a, b);
      if p.Str? { LexIrreflexive(p.s, CharLess); }
    } else {
      KeyLessDifferentHead(p, q, a, b);
    }
  }

  /** Comparison of three-element tuples, spelled out. */
  lemma KeyLessTriple(p1: KeyPart, p2: KeyPart, p3: KeyPart, q1: KeyPart, q2: KeyPart, q3: KeyPart)
    ensures KeyLess([p1, p2, p3], [q1, q2, q3]) <==>
            PartLess(p1, q1) ||
            (p1 == q1 && (PartLess(p2, q2) || (p2 == q2 && PartLess(p3, q3))))
  {
    var a3, b3 := [p3], [q3];
    var a2, b2 := [p2] + a3, [q2] + b3;
    assert [p1, p2, p3] == [p1] + a2 && [q1, q2, q3] == [q1] + b2;
    KeyLessCons(p1, q1, a2, b2);
    KeyLessCons(p2, q2, a3, b3);
    assert a3 == [p3] + [] && b3 == [q3] + [];
    KeyLessCons(p3, q3, [], []);
    assert KeyLess(a3, b3) <==> PartLess(p3, q3);
  }
}
