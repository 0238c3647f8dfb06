/** Strings as the bus uses them: sequences of characters compared the way
    `std::map<std::string, …>` compares its keys, and cut at the first NUL
    whenever the source passes them through `c_str()`. */
module ByteStrings {

  /** Strict lexicographic order (`std::less<std::string>`). */
  predicate Less(a: string, b: string) {
    b != [] && (a == [] || a[0] < b[0] || (a[0] == b[0] && Less(a[1..], b[1..])))
  }

  /** The strings agree up to `i`, where `a` ends or has the smaller character. */
  predicate ComesFirstAt(a: string, b: string, i: nat) {
    i <= |a| && i < |b| && a[..i] == b[..i] && (i == |a| || a[i] < b[i])
  }

  /** The order, without reference to how it is computed. */
  predicate ComesFirst(a: string, b: string) {
    exists i: nat | i <= |a| :: ComesFirstAt(a, b, i)
  }

  /** Strings that are told apart later start alike. */
  lemma StartAlike(a: string, b: string, i: nat)
    requires i > 0 && ComesFirstAt(a, b, i)
    ensures a[0] == b[0]
  {
    assert a[..i][0] == a[0] && b[..i][0] == b[0];
  }

  /** Strings with the same first character are told apart by the rest. */
  lemma DifferLater(a: string, b: string, i: nat)
    requires a != [] && b != [] && a[0] == b[0]
    ensures i > 0 && ComesFirstAt(a, b, i) ==> ComesFirstAt(a[1..], b[1..], i - 1)
    ensures ComesFirstAt(a[1..], b[1..], i) ==> ComesFirstAt(a, b, i + 1)
    ensures !ComesFirstAt(a, b, 0)
  {
    if i > 0 && ComesFirstAt(a, b, i) {
      assert a[1..][..i - 1] == a[..i][1..] && b[1..][..i - 1] == b[..i][1..];
    }
    if ComesFirstAt(a[1..], b[1..], i) {
      assert a[..i + 1] == [a[0]] + a[1..][..i] && b[..i + 1] == [b[0]] + b[1..][..i];
    }
  }

  /** Dictionary order: a proper prefix first, else by the first difference. */
  lemma {:induction false} LessMeaning(a: string, b: string)
    ensures Less(a, b) <==> ComesFirst(a, b)
    decreases |a|
  {
    forall i: nat | i > 0 && ComesFirstAt(a, b, i) ensures a[0] == b[0] { StartAlike(a, b, i); }
    if a == [] || b == [] || a[0] != b[0] {
      assert Less(a, b) <==> ComesFirstAt(a, b, 0);
    } else {
      LessMeaning(a[1..], b[1..]);
      forall i: nat ensures ComesFirstAt(a, b, i) ==> i > 0 && ComesFirstAt(a[1..], b[1..], i - 1) {
        DifferLater(a, b, i);
      }
      forall i: nat ensures ComesFirstAt(a[1..], b[1..], i) ==> ComesFirstAt(a, b, i + 1) {
        DifferLater(a, b, i);
      }
    }
  }

  lemma {:induction false} LessIrreflexive(a: string)
    ensures !Less(a, a)
  {
    if a != [] { LessIrreflexive(a[1..]); }
  }

  lemma {:induction false} LessTransitive(a: string, b: string, c: string)
    requires Less(a, b) && Less(b, c)
    ensures Less(a, c)
  {
    if a != [] && a[0] == b[0] && b[0] == c[0] {
      LessTransitive(a[1..], b[1..], c[1..]);
    }
  }

  lemma {:induction false} LessTotal(a: string, b: string)
    ensures a == b || Less(a, b) || Less(b, a)
  {
    if a != [] && b != [] && a[0] == b[0] {
      LessTotal(a[1..], b[1..]);
      assert a == [a[0]] + a[1..] && b == [b[0]] + b[1..];
    }
  }

  predicate Increasing(ks: seq<string>) {
    forall i, j | 0 <= i < j < |ks| :: Less(ks[i], ks[j])
  }

  predicate IsLeast(k: string, keys: set<string>) {
    k in keys && forall j | j in keys :: j == k || Less(k, j)
  }

  lemma {:induction false} LeastExists(keys: set<string>)
    requires keys != {}
    ensures exists k :: IsLeast(k, keys)
  {
    var x :| x in keys;
    var rest := keys - {x};
    if rest == {} {
      assert keys == {x};
      assert IsLeast(x, keys);
    } else {
      LeastExists(rest);
      var y :| IsLeast(y, rest);
      LessTotal(x, y);
      if Less(x, y) {
        forall j | j in keys ensures j == x || Less(x, j) {
          if j != x && j != y { LessTransitive(x, y, j); }
        }
        assert IsLeast(x, keys);
      } else {
        assert IsLeast(y, keys);
      }
    }
  }

  lemma LeastUnique(keys: set<string>)
    ensures forall x, y | IsLeast(x, keys) && IsLeast(y, keys) :: x == y
  {
    forall x, y | IsLeast(x, keys) && IsLeast(y, keys) ensures x == y {
      if x != y {
        LessTransitive(x, y, x);
        LessIrreflexive(x);
      }
    }
  }

  /** The keys of a map in the order `std::map` iteration visits them. */
  function SortedKeys(keys: set<string>): (ks: seq<string>)
    ensures Increasing(ks)
    ensures forall k :: k in ks <==> k in keys
  {
    if keys == {} then [] else
      LeastExists(keys);
      LeastUnique(keys);
      var k :| IsLeast(k, keys);
      [k] + SortedKeys(keys - {k})
  }

  lemma IncreasingDistinct(ks: seq<string>)
    requires Increasing(ks)
    ensures forall i, j | 0 <= i < j < |ks| :: ks[i] != ks[j]
  {
    forall i, j | 0 <= i < j < |ks| ensures ks[i] != ks[j] {
      LessIrreflexive(ks[i]);
    }
  }

  /** A strictly increasing listing of a key set is the only one: iteration
      order does not depend on the order in which the keys were inserted. */
  lemma {:induction false} SortedKeysUnique(ks: seq<string>, keys: set<string>)
    requires Increasing(ks)
    requires forall k :: k in ks <==> k in keys
    ensures ks == SortedKeys(keys)
    decreases |ks|
  {
    if ks == [] {
      assert forall k :: k in ks <==> k in keys;
      assert keys == {};
    } else {
      var k := ks[0];
      assert k in keys;
      forall j | j in keys ensures j == k || Less(k, j) {
        var i :| 0 <= i < |ks| && ks[i] == j;
      }
      assert IsLeast(k, keys);
      LeastUnique(keys);
      IncreasingDistinct(ks);
      forall j ensures j in ks[1..] <==> j in keys - {k} {
        if j in keys - {k} {
          var i :| 0 <= i < |ks| && ks[i] == j;
          assert ks[1..][i - 1] == j;
        }
      }
      SortedKeysUnique(ks[1..], keys - {k});
    }
  }

  /** What a callee sees of a string handed over with `c_str()`. */
  function CStr(s: string): (c: string)
    ensures '\0' !in c
    ensures |c| <= |s| && c == s[..|c|]
    ensures |c| < |s| ==> s[|c|] == '\0'
  {
    if s == [] || s[0] == '\0' then [] else [s[0]] + CStr(s[1..])
  }

  lemma {:induction false} CStrIdempotent(s: string)
    ensures CStr(CStr(s)) == CStr(s)
  {
  }

  function Digits(n: nat): string {
    var d := ['0', '1', '2', '3', '4', '5', '6', '7', '8', '9'][n % 10];
    if n < 10 then [d] else Digits(n / 10) + [d]
  }

  /** `std::to_string(int)`. */
  function ToString(i: int): string {
    if i < 0 then "-" + Digits(-i) else Digits(i)
  }

  /** The number a decimal numeral stands for. */
  function Numeral(digits: string): int {
    if digits == [] then 0 else 10 * Numeral(digits[..|digits| - 1]) + (digits[|digits| - 1] as int - '0' as int)
  }

  lemma {:induction false} DigitsMeaning(n: nat)
    ensures Numeral(Digits(n)) == n
    ensures Digits(n) != [] && (forall c | c in Digits(n) :: '0' <= c <= '9')
    ensures n > 0 ==> Digits(n)[0] != '0'
  {
    if n >= 10 {
      DigitsMeaning(n / 10);
      assert Digits(n)[..|Digits(n)| - 1] == Digits(n / 10);
    } else {
      assert Digits(n)[..0] == [];
    }
  }

  /** A numeral: decimal digits, no leading zero but in "0" itself. */
  predicate IsNumeral(s: string) {
    s != [] && (forall c | c in s :: '0' <= c <= '9') && (s[0] == '0' ==> s == "0")
  }

  /** The timeout written into a request is a decimal numeral that reads back. */
  lemma ToStringMeaning(i: int)
    ensures i >= 0 ==> IsNumeral(ToString(i)) && Numeral(ToString(i)) == i
    ensures i < 0 ==> ToString(i)[0] == '-' && IsNumeral(ToString(i)[1..]) && Numeral(ToString(i)[1..]) == -i
  {
    DigitsMeaning(if i < 0 then -i else i);
    if i < 0 { assert ToString(i)[1..] == Digits(-i); }
  }
}
