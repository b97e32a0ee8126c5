/** The order the runtime compares names in. */
module Names {
  ghost predicate TotalOrder(before: (string, string) -> bool) {
    && (forall a :: !before(a, a))
    && (forall a, b :: a != b ==> before(a, b) || before(b, a))
    && (forall a, b, c :: before(a, b) && before(b, c) ==> before(a, c))
  }

  /** Any locale's order: strict and total. */
  type NameOrder = before: (string, string) -> bool | TotalOrder(before) ghost witness (LexicalIsTotal(); Lexical)

  /** Code-unit order. */
  function Lexical(a: string, b: string): bool {
    b != [] && (a == [] || a[0] < b[0] || (a[0] == b[0] && Lexical(a[1..], b[1..])))
  }

  lemma {:induction false} LexicalCompares(a: string, b: string)
    ensures !Lexical(a, a)
    ensures a != b ==> Lexical(a, b) || Lexical(b, a)
  {
    if a != [] {
      LexicalCompares(a[1..], if b == [] then [] else b[1..]);
      if b != [] && a[0] == b[0] {
        assert a == [a[0]] + a[1..] && b == [b[0]] + b[1..];
      }
    }
  }

  lemma {:induction false} LexicalChains(a: string, b: string, c: string)
    requires Lexical(a, b) && Lexical(b, c)
    ensures Lexical(a, c)
  {
    if a != [] && a[0] == b[0] == c[0] {
      LexicalChains(a[1..], b[1..], c[1..]);
    }
  }

  lemma LexicalIsTotal()
    ensures TotalOrder(Lexical)
  {
    forall a, b
      ensures !Lexical(a, a) && (a != b ==> Lexical(a, b) || Lexical(b, a))
    {
      LexicalCompares(a, b);
    }
    forall a, b, c | Lexical(a, b) && Lexical(b, c)
      ensures Lexical(a, c)
    {
      LexicalChains(a, b, c);
    }
  }
}
