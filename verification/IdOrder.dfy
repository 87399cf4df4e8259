/** The names of the simulator's messages, and the order in which the accounting visits them: that of
    their text, which is not that of their numbers from the 1001st on. */
module IdOrder {
  import opened Prelude

  function Digit(d: nat): char
    requires d < 10
  {
    '0' + d as char
  }

  function Decimal(n: nat): string {
    if n < 10 then [Digit(n)] else Decimal(n / 10) + [Digit(n % 10)]
  }

  /** At least three places. */
  function Padded(s: string): string
    decreases 3 - |s|
  {
    if |s| < 3 then Padded(['0'] + s) else s
  }

  function IdText(n: nat): string {
    ['m'] + Padded(Decimal(n))
  }

  // -------------------------------------------------------- names are unique

  function Value(s: string): int {
    if s == [] then 0 else 10 * Value(s[..|s| - 1]) + (s[|s| - 1] as int - '0' as int)
  }

  lemma {:induction false} DecimalValue(n: nat)
    ensures Value(Decimal(n)) == n
  {
    if n < 10 {
      assert [Digit(n)][..0] == [];
    } else {
      DecimalValue(n / 10);
      assert Decimal(n)[..|Decimal(n)| - 1] == Decimal(n / 10);
    }
  }

  lemma {:induction false} LeadingZero(s: string)
    ensures Value(['0'] + s) == Value(s)
  {
    if s == [] {
      assert (['0'] + s)[..0] == [];
    } else {
      var k := |s| - 1;
      LeadingZero(s[..k]);
      assert (['0'] + s)[..k + 1] == ['0'] + s[..k];
    }
  }

  lemma {:induction false} PaddedValue(s: string)
    ensures Value(Padded(s)) == Value(s)
    decreases 3 - |s|
  {
    if |s| < 3 {
      PaddedValue(['0'] + s);
      LeadingZero(s);
    }
  }

  /** A message's name gives its number back, so no two messages share a name. */
  lemma NamesUnique(m: nat, k: nat)
    ensures IdText(m) == IdText(k) <==> m == k
  {
    if IdText(m) == IdText(k) {
      assert IdText(m)[1..] == Padded(Decimal(m)) && IdText(k)[1..] == Padded(Decimal(k));
      PaddedValue(Decimal(m));
      PaddedValue(Decimal(k));
      DecimalValue(m);
      DecimalValue(k);
    }
  }

  // ------------------------------------------------------------ text order

  /** The order of texts, character by character. */
  predicate Precedes(a: string, b: string) {
    a == [] || (b != [] && (a[0] < b[0] || (a[0] == b[0] && Precedes(a[1..], b[1..]))))
  }

  lemma {:induction false} PrecedesTotal(a: string, b: string)
    ensures Precedes(a, b) || Precedes(b, a)
  {
    if a != [] && b != [] && a[0] == b[0] {
      PrecedesTotal(a[1..], b[1..]);
    }
  }

  lemma {:induction false} PrecedesTransitive(a: string, b: string, c: string)
    requires Precedes(a, b) && Precedes(b, c)
    ensures Precedes(a, c)
  {
    if a != [] && b != [] && c != [] && a[0] == b[0] == c[0] {
      PrecedesTransitive(a[1..], b[1..], c[1..]);
    }
  }

  predicate Sorted(ids: seq<nat>) {
    forall i, j :: 0 <= i < j < |ids| ==> Precedes(IdText(ids[i]), IdText(ids[j]))
  }

  function Insert(ids: seq<nat>, m: nat): seq<nat> {
    if ids == [] then [m]
    else if Precedes(IdText(m), IdText(ids[0])) then [m] + ids
    else [ids[0]] + Insert(ids[1..], m)
  }

  lemma {:induction false} InsertKeeps(ids: seq<nat>, m: nat)
    requires Sorted(ids)
    ensures Sorted(Insert(ids, m)) && multiset(Insert(ids, m)) == multiset(ids) + multiset{m}
  {
    hide IdText, Precedes;
    if ids != [] {
      assert ids == [ids[0]] + ids[1..];
      if Precedes(IdText(m), IdText(ids[0])) {
        forall i | 0 <= i < |ids|
          ensures Precedes(IdText(m), IdText(ids[i]))
        {
          if i > 0 {
            PrecedesTransitive(IdText(m), IdText(ids[0]), IdText(ids[i]));
          }
        }
      } else {
        var rest := Insert(ids[1..], m);
        InsertKeeps(ids[1..], m);
        PrecedesTotal(IdText(m), IdText(ids[0]));
        forall i | 0 <= i < |rest|
          ensures Precedes(IdText(ids[0]), IdText(rest[i]))
        {
          assert rest[i] in multiset(rest);
          if rest[i] != m {
            assert rest[i] in ids[1..];
          }
        }
      }
    }
  }

  /** The numbers below n. */
  function Upto(n: nat): seq<nat> {
    seq(n, i requires 0 <= i < n => i)
  }

  function InsertAll(n: nat): seq<nat> {
    if n == 0 then [] else Insert(InsertAll(n - 1), n - 1)
  }

  /** The numbers below n in the order of their names. */
  function SortedIds(n: nat): (ids: seq<nat>)
    ensures Sorted(ids) && multiset(ids) == multiset(Upto(n))
    ensures |ids| == n && forall i :: 0 <= i < n ==> ids[i] < n
  {
    InsertAllSorts(n);
    SameBag(InsertAll(n), n);
    InsertAll(n)
  }

  lemma {:induction false} InsertAllSorts(n: nat)
    ensures Sorted(InsertAll(n)) && multiset(InsertAll(n)) == multiset(Upto(n))
  {
    hide Sorted, Insert;
    if n == 0 {
      assert Sorted([]) by { NothingToSort(); }
    } else {
      InsertAllSorts(n - 1);
      InsertKeeps(InsertAll(n - 1), n - 1);
      assert Upto(n) == Upto(n - 1) + [n - 1];
    }
  }

  lemma NothingToSort()
    ensures Sorted([])
  {
  }

  lemma SameBag(ids: seq<nat>, n: nat)
    requires multiset(ids) == multiset(Upto(n))
    ensures |ids| == n && forall i :: 0 <= i < n ==> ids[i] < n
  {
    assert |multiset(ids)| == |ids| && |multiset(Upto(n))| == n;
    forall i | 0 <= i < n
      ensures ids[i] < n
    {
      assert ids[i] in multiset(ids);
      assert ids[i] in Upto(n);
    }
  }

  /** The items, named by their positions, in the order of their names. */
  function InIdOrder<T>(items: seq<T>): (r: seq<T>)
    ensures |r| == |items|
    ensures forall x :: x in r ==> x in items
  {
    var ids := SortedIds(|items|);
    var r := seq(|items|, i requires 0 <= i < |items| => items[ids[i]]);
    assert forall x :: x in r ==> exists i :: 0 <= i < |r| && r[i] == x && items[ids[i]] == x;
    r
  }

  lemma PrecedesTail(c: char, a: string, b: string)
    ensures Precedes([c] + a, [c] + b) <==> Precedes(a, b)
  {
    assert ([c] + a)[1..] == a && ([c] + b)[1..] == b;
  }

  /** The 1001st message is visited before the 102nd. */
  lemma LaterMessageFirst()
    ensures Precedes(IdText(1000), IdText(101)) && IdText(1000) == "m1000" && IdText(101) == "m101"
  {
    hide Precedes, IdText;
    TwoNames();
    assert Precedes("00", "1") by { ZeroBeforeOne(); }
    PrecedesTail('0', "00", "1");
    PrecedesTail('1', "000", "01");
    PrecedesTail('m', "1000", "101");
    assert ['0'] + "00" == "000" && ['0'] + "1" == "01" && ['1'] + "000" == "1000" && ['1'] + "01" == "101";
    assert ['m'] + "1000" == "m1000" && ['m'] + "101" == "m101";
  }

  lemma ZeroBeforeOne()
    ensures Precedes("00", "1")
  {
  }

  lemma TwoNames()
    ensures IdText(1000) == "m1000" && IdText(101) == "m101"
  {
    assert Decimal(1) == "1" && Decimal(10) == "10" && Decimal(100) == "100";
    assert Decimal(1000) == "1000" && Decimal(101) == "101";
  }
}
