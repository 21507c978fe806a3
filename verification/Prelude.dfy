/** Small shared vocabulary: options, removal from a list, numerals and counting. */
module Prelude {

  datatype Option<+T> = None | Some(value: T)

  /** Redis LREM key 1 x: drop the first occurrence, if there is one. */
  function RemoveFirst<T(==)>(s: seq<T>, x: T): seq<T> {
    if s == [] then [] else if s[0] == x then s[1..] else [s[0]] + RemoveFirst(s[1..], x)
  }

  lemma {:induction false} RemoveCount<T>(s: seq<T>, x: T)
    ensures multiset(RemoveFirst(s, x)) == multiset(s) - multiset{x}
    ensures x !in s ==> RemoveFirst(s, x) == s
  {
    if s != [] {
      assert s == [s[0]] + s[1..];
      RemoveCount(s[1..], x);
    }
  }

  lemma EmptyOrMember<T>(s: seq<T>)
    ensures s == [] || exists x :: x in s
  {
    if s != [] { assert s[0] in s; }
  }

  /** The numbers below n. */
  function Below(n: nat): (r: set<nat>)
    ensures forall i: nat :: i in r <==> i < n
    ensures |r| == n
  {
    if n == 0 then {} else Below(n - 1) + {n - 1}
  }

  lemma {:induction false} SubsetSize<T>(a: set<T>, b: set<T>)
    requires a <= b
    ensures |a| <= |b|
    ensures |a| == |b| ==> a == b
    decreases |a|
  {
    if a == {} {
      if b != {} {
        var y :| y in b;
        assert |b| > 0;
      }
    } else {
      var x :| x in a;
      SubsetSize(a - {x}, b - {x});
      assert a == (a - {x}) + {x} && b == (b - {x}) + {x};
    }
  }

  /** A list of numbers below n that is longer than n repeats one of them. */
  lemma {:induction false} Pigeonhole(s: seq<nat>, n: nat) returns (a: nat, b: nat)
    requires |s| > n
    requires forall k :: 0 <= k < |s| ==> s[k] < n
    ensures a < b < |s| && s[a] == s[b]
    decreases n
  {
    if p, q :| 0 <= p < q < |s| && s[p] == s[q] {
      a, b := p, q;
    } else {
      var seen := set k | 0 <= k < |s| :: s[k];
      DistinctSize(s);
      SubsetSize(seen, Below(n));
      assert false;
    }
  }

  lemma {:induction false} DistinctSize<T>(s: seq<T>)
    requires forall p, q :: 0 <= p < q < |s| ==> s[p] != s[q]
    ensures |set k | 0 <= k < |s| :: s[k]| == |s|
  {
    var all := set k | 0 <= k < |s| :: s[k];
    if |s| > 0 {
      var t := s[..|s| - 1];
      DistinctSize(t);
      var rest := set k | 0 <= k < |t| :: t[k];
      var last := s[|s| - 1];
      assert last !in rest;
      assert all == rest + {last} by {
        forall x | x in all ensures x in rest + {last} {
          var k :| 0 <= k < |s| && s[k] == x;
          if k < |t| { assert t[k] == x; }
        }
        forall x | x in rest + {last} ensures x in all {
          if x in rest {
            var k :| 0 <= k < |t| && t[k] == x;
            assert s[k] == x;
          } else {
            assert s[|s| - 1] == x;
          }
        }
      }
    }
  }

  /** strconv.Itoa and the %d verb, for the non-negative numbers that occur here. */
  function Decimal(n: nat): (r: string)
    ensures |r| > 0
    ensures forall k :: 0 <= k < |r| ==> '0' <= r[k] <= '9'
  {
    if n < 10 then [Digit(n)] else Decimal(n / 10) + [Digit(n % 10)]
  }

  function Digit(n: nat): (c: char)
    requires n < 10
    ensures '0' <= c <= '9'
    ensures c as int == '0' as int + n
  {
    ('0' as int + n) as char
  }

  /** Read back, digit by digit. */
  function Numeral(s: string): int {
    if s == "" then 0 else 10 * Numeral(s[..|s| - 1]) + (s[|s| - 1] as int - '0' as int)
  }

  /** The numeral says its number, without leading zeros. */
  lemma {:induction false} DecimalReads(n: nat)
    ensures Numeral(Decimal(n)) == n
    ensures n > 0 ==> Decimal(n)[0] != '0'
  {
    var s := Decimal(n);
    if n < 10 {
      assert s[..|s| - 1] == "";
    } else {
      DecimalReads(n / 10);
      assert s[..|s| - 1] == Decimal(n / 10);
    }
  }

  lemma {:induction false} DecimalInjective(m: nat, n: nat)
    requires Decimal(m) == Decimal(n)
    ensures m == n
    decreases m
  {
    var a, b := Decimal(m), Decimal(n);
    assert a[|a| - 1] == b[|b| - 1];
    assert Digit(m % 10) == Digit(n % 10);
    if m < 10 || n < 10 {
      assert |a| == 1 && |b| == 1;
    } else {
      assert a[..|a| - 1] == Decimal(m / 10);
      assert b[..|b| - 1] == Decimal(n / 10);
      DecimalInjective(m / 10, n / 10);
    }
  }
}
