/** Per-currency totals (`models.CurrencyAmounts`): a missing code reads as zero
    and a zero contribution adds no code. Amounts are minor units. */
module Currency {

  type Amounts = map<string, int>

  function Get(m: Amounts, code: string): int {
    if code in m then m[code] else 0
  }

  function Add(m: Amounts, code: string, amount: int): Amounts {
    if amount == 0 then m else m[code := Get(m, code) + amount]
  }

  lemma AddGet(m: Amounts, code: string, amount: int, c: string)
    ensures Get(Add(m, code, amount), c) == Get(m, c) + if c == code then amount else 0
  {
  }

  /** One total added into another, code by code. */
  function AddAll(a: Amounts, m: Amounts): Amounts {
    map c | c in a.Keys + (set x | x in m && m[x] != 0) :: Get(a, c) + Get(m, c)
  }

  method AddAmounts(a: Amounts, m: Amounts) returns (out: Amounts)
    ensures out == AddAll(a, m)
  {
    out := a;
    var rest := m.Keys;
    while rest != {}
      invariant rest <= m.Keys
      invariant out == map c | c in AddAll(a, m) && (c in a || c !in rest) ::
                  if c in rest then a[c] else AddAll(a, m)[c]
      decreases rest
    {
      var code :| code in rest;
      rest := rest - {code};
      out := Add(out, code, m[code]);
    }
    assert out == AddAll(a, m);
  }

  /** A single amount as a total. */
  function One(code: string, amount: int): Amounts {
    Add(map[], code, amount)
  }

  lemma AddIsAddAll(m: Amounts, code: string, amount: int)
    ensures Add(m, code, amount) == AddAll(m, One(code, amount))
  {
  }
}
