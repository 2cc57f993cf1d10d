/** Sums over finite sets, whatever order the elements are taken in. */
module Sums {

  ghost function SumOver<T>(s: set<T>, f: T -> int): int {
    if s == {} then 0
    else
      var x :| x in s;
      f(x) + SumOver(s - {x}, f)
  }

  lemma {:induction false} SumRemove<T>(s: set<T>, f: T -> int, y: T)
    requires y in s
    ensures SumOver(s, f) == f(y) + SumOver(s - {y}, f)
  {
    var x :| x in s && SumOver(s, f) == f(x) + SumOver(s - {x}, f);
    if x != y {
      SumRemove(s - {x}, f, y);
      SumRemove(s - {y}, f, x);
      assert s - {x} - {y} == s - {y} - {x};
    }
  }

  lemma {:induction false} SumSame<T>(s: set<T>, f: T -> int, g: T -> int)
    requires forall x :: x in s ==> f(x) == g(x)
    ensures SumOver(s, f) == SumOver(s, g)
  {
    if s != {} {
      var x :| x in s;
      SumRemove(s, f, x);
      SumRemove(s, g, x);
      SumSame(s - {x}, f, g);
    }
  }

  lemma SumAdd<T>(s: set<T>, f: T -> int, y: T)
    requires y !in s
    ensures SumOver(s + {y}, f) == SumOver(s, f) + f(y)
  {
    SumRemove(s + {y}, f, y);
    assert s + {y} - {y} == s;
  }

  /** Changing the summand at one element changes the sum by the difference. */
  lemma SumBump<T>(s: set<T>, f: T -> int, g: T -> int, y: T)
    requires y in s && forall x :: x in s && x != y ==> f(x) == g(x)
    ensures SumOver(s, g) == SumOver(s, f) - f(y) + g(y)
  {
    SumRemove(s, f, y);
    SumRemove(s, g, y);
    SumSame(s - {y}, f, g);
  }

  lemma {:induction false} SumUnion<T>(s: set<T>, t: set<T>, f: T -> int)
    requires s !! t
    ensures SumOver(s + t, f) == SumOver(s, f) + SumOver(t, f)
  {
    if t == {} {
      assert s + t == s;
    } else {
      var x :| x in t;
      SumRemove(t, f, x);
      SumUnion(s, t - {x}, f);
      SumAdd(s + (t - {x}), f, x);
      assert s + (t - {x}) + {x} == s + t;
    }
  }

  /** A sum of signed amounts is the amounts counted less the amounts taken off. */
  lemma {:induction false} SumSigned<T>(s: set<T>, plus: set<T>, minus: set<T>, f: T -> int, amount: T -> int)
    requires plus <= s && minus <= s && plus !! minus
    requires forall x :: x in s ==> f(x) == if x in plus then amount(x) else if x in minus then -amount(x) else 0
    ensures SumOver(s, f) == SumOver(plus, amount) - SumOver(minus, amount)
  {
    if s != {} {
      var x :| x in s;
      SumRemove(s, f, x);
      SumSigned(s - {x}, plus - {x}, minus - {x}, f, amount);
      if x in plus {
        SumRemove(plus, amount, x);
      } else {
        assert plus - {x} == plus;
      }
      if x in minus {
        SumRemove(minus, amount, x);
      } else {
        assert minus - {x} == minus;
      }
    }
  }
}
