/**
 * The month index of the consolidated billing report: the distinct `YYYY-MM`
 * labels of the invoices' creation dates, in the order they are first met.
 * The list is never sorted (the source names `monthlist.sort` without calling it).
 */
module BillingMonths {
  import opened Common
  import opened BillingData

  /** The billing month of a creation date: the slice `createDate[0:7]`, which
      Python clamps to the whole string when it is shorter. */
  function Month(createDate: string): (m: string)
    ensures |m| <= 7 && StartsWith(createDate, m)
    ensures |createDate| >= 7 ==> |m| == 7
    ensures |createDate| < 7 ==> m == createDate
  {
    if |createDate| <= 7 then createDate else createDate[..7]
  }

  /** `s` with every element after its first occurrence dropped (the
      `if x not in list: list.append(x)` idiom, as a function). */
  function FirstSeen<T(==)>(s: seq<T>): seq<T>
  {
    if s == [] then []
    else
      var r := FirstSeen(s[..|s| - 1]);
      if s[|s| - 1] in r then r else r + [s[|s| - 1]]
  }

  /** Index of the first occurrence of `x` in `s`. */
  function FirstIndex<T(==)>(s: seq<T>, x: T): (k: nat)
    requires x in s
    ensures k < |s| && s[k] == x && x !in s[..k]
  {
    if s[0] == x then 0 else 1 + FirstIndex(s[1..], x)
  }

  lemma {:induction false} FirstIndexOfExtended<T>(s: seq<T>, x: T, y: T)
    requires y in s
    ensures FirstIndex(s + [x], y) == FirstIndex(s, y)
  {
    if s[0] != y {
      assert (s + [x])[1..] == s[1..] + [x];
      FirstIndexOfExtended(s[1..], x, y);
    }
  }

  /** The month label of every invoice, in invoice order. */
  function Months(invoices: seq<Invoice>): (ms: seq<string>)
    ensures |ms| == |invoices|
    ensures forall i :: 0 <= i < |ms| ==> ms[i] == Month(invoices[i].createDate)
  {
    seq(|invoices|, i requires 0 <= i < |invoices| => Month(invoices[i].createDate))
  }

  /** Each label is kept once, exactly the labels of the input occur, and they
      appear in the order of their first occurrences in the input. */
  lemma {:induction false} FirstSeenCharacterised<T>(s: seq<T>)
    ensures NoDuplicates(FirstSeen(s))
    ensures forall x :: x in FirstSeen(s) <==> x in s
    ensures forall i, j :: 0 <= i < j < |FirstSeen(s)| ==>
              FirstIndex(s, FirstSeen(s)[i]) < FirstIndex(s, FirstSeen(s)[j])
  {
    if s != [] {
      var init, last := s[..|s| - 1], s[|s| - 1];
      assert s == init + [last];
      FirstSeenCharacterised(init);
      var r := FirstSeen(init);
      forall y | y in init ensures FirstIndex(s, y) == FirstIndex(init, y) {
        FirstIndexOfExtended(init, last, y);
      }
      if last !in r {
        assert last !in init;
        assert FirstIndex(s, last) == |init| by {
          assert s[..|init|] == init;
        }
      }
    }
  }

  /** Lines 121-131: build `monthlist` by appending each invoice's month label
      unless it is already present. */
  method BuildMonthIndex(invoices: seq<Invoice>) returns (monthlist: seq<string>)
    ensures monthlist == FirstSeen(Months(invoices))
    ensures NoDuplicates(monthlist)
    ensures forall m :: m in monthlist <==> exists i :: 0 <= i < |invoices| && Month(invoices[i].createDate) == m
  {
    monthlist := [];
    for i := 0 to |invoices|
      invariant monthlist == FirstSeen(Months(invoices[..i]))
    {
      var month := Month(invoices[i].createDate);
      assert Months(invoices[..i + 1]) == Months(invoices[..i]) + [month];
      if month !in monthlist {
        monthlist := monthlist + [month];
      }
    }
    assert invoices[..|invoices|] == invoices;
    FirstSeenCharacterised(Months(invoices));
    forall m | m in monthlist ensures exists i :: 0 <= i < |invoices| && Month(invoices[i].createDate) == m {
      var i := FirstIndex(Months(invoices), m);
    }
  }
}
