/** The post-processing of the percent-encoded query in the GET builder:
    every literal `+` becomes `%2B`, so that a server reading the query as a
    form body does not take it for an encoded space. */
module Query {

  function EscapePlus(q: string): (r: string)
    ensures '+' !in r
    ensures |r| >= |q|
    ensures q != [] ==> r[0] == (if q[0] == '+' then '%' else q[0])
  {
    if q == [] then []
    else (if q[0] == '+' then "%2B" else [q[0]]) + EscapePlus(q[1..])
  }

  /** `%2B` occurs in `s` at position `i`. */
  predicate EscapedPlusAt(s: string, i: nat)
  {
    i + 3 <= |s| && s[i] == '%' && s[i + 1] == '2' && s[i + 2] == 'B'
  }

  predicate NoEscapedPlus(s: string)
  {
    forall i: nat | i < |s| :: !EscapedPlusAt(s, i)
  }

  /** Reads `%2B` back as `+`, scanning from the left. */
  function UnescapePlus(s: string): string
  {
    if EscapedPlusAt(s, 0) then "+" + UnescapePlus(s[3..])
    else if s == [] then []
    else [s[0]] + UnescapePlus(s[1..])
  }

  /** The escaping loses nothing: on a query that has no `%2B` of its own, it
      is undone by reading `%2B` back as `+`. */
  lemma {:induction false} UnescapeEscape(q: string)
    requires NoEscapedPlus(q)
    ensures UnescapePlus(EscapePlus(q)) == q
  {
    if q != [] {
      var tail := q[1..];
      assert NoEscapedPlus(tail) by {
        forall i: nat | i < |tail| ensures !EscapedPlusAt(tail, i) {
          assert !EscapedPlusAt(q, i + 1);
        }
      }
      UnescapeEscape(tail);
      var t := EscapePlus(tail);
      if q[0] == '+' {
        assert EscapePlus(q) == "%2B" + t;
        assert EscapedPlusAt("%2B" + t, 0);
        assert ("%2B" + t)[3..] == t;
      } else {
        var e := [q[0]] + t;
        assert EscapePlus(q) == e;
        assert !EscapedPlusAt(q, 0);
        NoEscapeAtFront(q);
        assert e[1..] == t;
      }
    }
  }

  /** Escaping a query that does not start with `+` or `%2B` does not start
      the result with `%2B`. */
  lemma NoEscapeAtFront(q: string)
    requires q != [] && q[0] != '+' && !EscapedPlusAt(q, 0)
    ensures !EscapedPlusAt(EscapePlus(q), 0)
  {
    var e := EscapePlus(q);
    var t := EscapePlus(q[1..]);
    assert e == [q[0]] + t;
    if |e| >= 3 && q[0] == '%' {
      assert |t| >= 2;
      assert q[1..] != [];
      assert t[0] == (if q[1] == '+' then '%' else q[1]);
      if q[1] == '2' {
        var u := EscapePlus(q[2..]);
        assert q[1..][1..] == q[2..];
        assert t == ['2'] + u;
        assert |u| >= 1;
        assert q[2..] != [];
        assert u[0] == (if q[2] == '+' then '%' else q[2]);
        assert e[2] == u[0];
        assert e[2] != 'B';
      } else {
        assert e[1] == t[0];
        assert e[1] != '2';
      }
    }
  }
}
