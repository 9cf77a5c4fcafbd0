/** The unique-name generator shared by the effect routines: `gensym` followed by a counter. */
module Gensym {

  function Digit(d: nat): (c: char)
    requires d < 10
    ensures '0' <= c <= '9'
  {
    ('0' as int + d) as char
  }

  function DigitValue(c: char): (d: nat)
  {
    if '0' <= c <= '9' then c as int - '0' as int else 0
  }

  /** The decimal text of `n`, as a template literal renders a non-negative integer. */
  function DecimalString(n: nat): (s: string)
    ensures |s| >= 1
    ensures forall k :: 0 <= k < |s| ==> '0' <= s[k] <= '9'
    decreases n
  {
    if n < 10 then [Digit(n)] else DecimalString(n / 10) + [Digit(n % 10)]
  }

  /** The number a string of decimal digits denotes. */
  function DecimalValue(s: string): (n: nat)
    decreases |s|
  {
    if s == [] then 0 else DecimalValue(s[..|s| - 1]) * 10 + DigitValue(s[|s| - 1])
  }

  lemma {:induction false} DecimalRoundTrip(n: nat)
    ensures DecimalValue(DecimalString(n)) == n
    decreases n
  {
    var s := DecimalString(n);
    if n >= 10 {
      DecimalRoundTrip(n / 10);
      assert s[..|s| - 1] == DecimalString(n / 10);
    }
  }

  /** The name issued for counter value `n`: the prefix followed by a non-empty run of digits. */
  function Name(n: nat): (r: string)
    ensures |r| > 6 && r[..6] == "gensym"
    ensures forall k :: 6 <= k < |r| ==> '0' <= r[k] <= '9'
  {
    "gensym" + DecimalString(n)
  }

  /** Different counter values give different names. */
  lemma NamesDistinct(a: nat, b: nat)
    requires a != b
    ensures Name(a) != Name(b)
  {
    DecimalRoundTrip(a);
    DecimalRoundTrip(b);
    assert Name(a)[6..] == DecimalString(a);
    assert Name(b)[6..] == DecimalString(b);
  }

  /** The module-level counter; `issued` records every name handed out so far. */
  class GensymCounter {
    var gensymN: nat
    ghost var issued: set<string>

    ghost predicate Valid()
      reads this
    {
      issued == set i | 0 <= i < gensymN :: Name(i)
    }

    constructor ()
      ensures Valid() && gensymN == 0 && issued == {}
    {
      gensymN := 0;
      issued := {};
    }

    /** Returns the name for the current counter value and then increments the counter. */
    method Gensym() returns (name: string)
      requires Valid()
      modifies this
      ensures Valid()
      ensures name == Name(old(gensymN)) && gensymN == old(gensymN) + 1
      ensures name !in old(issued) && issued == old(issued) + {name}
    {
      name := "gensym" + DecimalString(gensymN);
      forall i | 0 <= i < gensymN
        ensures Name(i) != name
      {
        NamesDistinct(i, gensymN);
      }
      ghost var next := set i | 0 <= i < gensymN + 1 :: Name(i);
      assert next == issued + {name} by {
        forall x | x in next
          ensures x in issued + {name}
        {
          var i :| 0 <= i < gensymN + 1 && x == Name(i);
          if i < gensymN {
            assert x in issued;
          }
        }
        forall x | x in issued + {name}
          ensures x in next
        {
          if x in issued {
            var i :| 0 <= i < gensymN && x == Name(i);
            assert Name(i) in next;
          } else {
            assert Name(gensymN) in next;
          }
        }
      }
      issued := issued + {name};
      gensymN := gensymN + 1;
    }
  }
}
