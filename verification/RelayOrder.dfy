/** The order in which subscriptions are searched: that of the keys of a JavaScript object. */
module RelayOrder {
  import opened Wrappers
  import opened RelayMatching
  import opened Relay
  import opened RelayDelivery

  function Digits(n: nat): string {
    (if n < 10 then "" else Digits(n / 10)) + [('0' as int + n % 10) as char]
  }

  /** A key that spells an array index, a number below 2^32 - 1. */
  predicate Indexes(key: string, n: nat) {
    n < 0xffff_ffff && key == Digits(n)
  }

  lemma {:induction false} DecimalOfDigits(n: nat)
    ensures Decimal(Digits(n)) == n && |Digits(n)| >= 1
    ensures forall c | c in Digits(n) :: '0' <= c <= '9'
    ensures Digits(n)[0] == '0' <==> n == 0
    ensures n >= 10 ==> |Digits(n)| > 1
  {
    var d := Digits(n);
    if n >= 10 {
      DecimalOfDigits(n / 10);
    }
    assert d[..|d| - 1] == if n < 10 then "" else Digits(n / 10);
    assert d[|d| - 1] as int - '0' as int == n % 10;
  }

  function Power(k: nat): (p: nat)
    ensures p > 0
  {
    if k == 0 then 1 else 10 * Power(k - 1)
  }

  lemma {:induction false} DigitCount(n: nat, k: nat)
    requires n < Power(k) && k >= 1
    ensures |Digits(n)| <= k
  {
    if n >= 10 {
      assert k >= 2 by { assert Power(1) == 10 * Power(0); }
      assert n / 10 < Power(k - 1);
      DigitCount(n / 10, k - 1);
    }
  }

  lemma AddDigit(front: nat, c: char)
    requires '0' <= c <= '9' && front > 0
    ensures Digits(front * 10 + (c as int - '0' as int)) == Digits(front) + [c]
  {
    var v := c as int - '0' as int;
    var n := front * 10 + v;
    assert n / 10 == front && n % 10 == v;
  }

  lemma OneDigit(c: char)
    requires '0' <= c <= '9'
    ensures Decimal([c]) == c as int - '0' as int && Digits(c as int - '0' as int) == [c]
  {
    var v := c as int - '0' as int;
    assert [c][..0] == "" && v % 10 == v;
  }

  lemma {:induction false} DigitsOfDecimal(key: string)
    requires key != "" && (forall c | c in key :: '0' <= c <= '9') && (key[0] == '0' ==> |key| == 1)
    ensures Decimal(key) >= 0 && Digits(Decimal(key)) == key
    decreases |key|
  {
    hide Digits;
    var n := |key| - 1;
    var front, last := key[..n], key[n];
    assert key == front + [last] && last in key;
    if n == 0 {
      OneDigit(last);
      assert key == [last];
    } else {
      assert forall c | c in front :: c in key;
      assert front[0] == key[0];
      DigitsOfDecimal(front);
      NoLeadingZero(front);
      AddDigit(Decimal(front), last);
    }
  }

  lemma NoLeadingZero(front: string)
    requires front != "" && (forall c | c in front :: '0' <= c <= '9') && front[0] != '0'
    requires Decimal(front) >= 0 && Digits(Decimal(front)) == front
    ensures Decimal(front) > 0
  {
    DecimalOfDigits(Decimal(front));
  }

  /** Which keys count as indices, and as which. */
  lemma IndexMeans(key: string, n: nat)
    ensures IsIndex(key) && Decimal(key) == n <==> Indexes(key, n)
  {
    if IsIndex(key) {
      DigitsOfDecimal(key);
    }
    if Indexes(key, n) {
      DecimalOfDigits(n);
      assert Power(10) == 10_000_000_000 by { PowerOfTen(); }
      DigitCount(n, 10);
    }
  }

  lemma PowerOfTen()
    ensures Power(10) == 10_000_000_000
  {
    assert Power(4) == 10_000;
    assert Power(7) == 1_000 * Power(4);
    assert Power(10) == 1_000 * Power(7);
  }

  // ----- sorted -----

  /** Of two keys in this order: an index comes only after smaller ones. */
  predicate MayFollow(a: string, b: string) {
    IsIndex(b) ==> IsIndex(a) && Decimal(a) < Decimal(b)
  }

  ghost predicate InOrder(subs: Subs) {
    subs == [] || (InOrder(subs[1..]) && forall key | Find(subs[1..], key).Some? :: MayFollow(subs[0].0, key))
  }

  lemma MayFollowNew(key: string, head: string)
    requires key != head && !KeyBefore(key, head)
    ensures MayFollow(head, key)
  {
    if IsIndex(key) && IsIndex(head) {
      DigitsOfDecimal(key);
      DigitsOfDecimal(head);
    }
  }

  lemma {:induction false} InsertKeepsOrder(subs: Subs, key: string, filters: seq<Json>)
    requires Find(subs, key).None? && InOrder(subs)
    ensures InOrder(Insert(subs, key, filters))
  {
    hide KeyBefore, IsIndex, Decimal;
    var t := Insert(subs, key, filters);
    if subs == [] || KeyBefore(key, subs[0].0) {
      assert t[1..] == subs;
      forall other | Find(subs, other).Some?
        ensures MayFollow(key, other)
      {
        FollowsAll(subs, key, other);
      }
    } else {
      InsertKeepsOrder(subs[1..], key, filters);
      assert t[1..] == Insert(subs[1..], key, filters);
      forall other | Find(t[1..], other).Some?
        ensures MayFollow(t[0].0, other)
      {
        InsertFinds(subs[1..], key, filters, other);
        if other == key {
          MayFollowNew(key, subs[0].0);
        }
      }
    }
  }

  lemma FollowsAll(subs: Subs, key: string, other: string)
    requires subs != [] && KeyBefore(key, subs[0].0) && InOrder(subs) && Find(subs, other).Some?
    ensures MayFollow(key, other)
  {
    hide IsIndex, Decimal;
    if subs[0].0 != other {
      assert MayFollow(subs[0].0, other);
    }
  }

  lemma {:induction false} ReplaceKeepsOrder(subs: Subs, key: string, filters: seq<Json>)
    requires InOrder(subs)
    ensures InOrder(Replace(subs, key, filters))
  {
    hide MayFollow;
    if subs != [] {
      var t := Replace(subs, key, filters);
      if subs[0].0 == key {
        assert t[1..] == subs[1..];
      } else {
        ReplaceKeepsOrder(subs[1..], key, filters);
        assert t[1..] == Replace(subs[1..], key, filters);
        forall other | Find(t[1..], other).Some?
          ensures MayFollow(t[0].0, other)
        {
          ReplaceFinds(subs[1..], key, filters, other);
        }
      }
    }
  }

  lemma {:induction false} DeleteKeepsOrder(subs: Subs, key: string)
    requires InOrder(subs) && OwnKeys(subs)
    ensures InOrder(Delete(subs, key))
  {
    hide MayFollow;
    if subs != [] && subs[0].0 != key {
      var t := Delete(subs, key);
      DeleteKeepsOrder(subs[1..], key);
      assert t[1..] == Delete(subs[1..], key);
      forall other | Find(t[1..], other).Some?
        ensures MayFollow(t[0].0, other)
      {
        DeleteFinds(subs[1..], key, other);
      }
    }
  }

  lemma {:induction false} AlwaysInOrder(run: seq<Action>, p: SocketId)
    requires Legal(run) && p in After(run).subs
    ensures InOrder(After(run).subs[p])
    decreases |run|
  {
    hide InOrder, Find, Insert, Replace, Delete, OwnKeys, Plain, Distinct, Inherited, IsIndex;
    var before, a := run[..|run| - 1], run[|run| - 1];
    var s := After(before);
    NothingIsInOrder();
    if p in s.subs {
      AlwaysInOrder(before, p);
      if a.Message? && a.who == p && a.msg.Req? && Accepts(s.subs[p], a.msg.id) {
        var key := Primitive(a.msg.id).text;
        ReplaceKeepsOrder(s.subs[p], key, a.msg.filters);
        if Find(s.subs[p], key).None? {
          InsertKeepsOrder(s.subs[p], key, a.msg.filters);
        }
      } else if a.Message? && a.who == p && a.msg.Close? && Primitive(a.msg.id).Becomes? {
        DeleteKeepsOrder(s.subs[p], Primitive(a.msg.id).text);
      }
    }
  }

  lemma NothingIsInOrder()
    ensures InOrder([])
  {
  }

  lemma {:induction false} FindsAt(subs: Subs, i: nat)
    requires i < |subs|
    ensures Find(subs, subs[i].0).Some?
  {
    if i > 0 {
      FindsAt(subs[1..], i - 1);
    }
  }

  lemma {:induction false} OrderedPairs(subs: Subs, i: nat, j: nat)
    requires InOrder(subs) && i < j < |subs|
    ensures MayFollow(subs[i].0, subs[j].0)
    decreases i
  {
    hide MayFollow;
    if i == 0 {
      FindsAt(subs[1..], j - 1);
    } else {
      OrderedPairs(subs[1..], i - 1, j - 1);
    }
  }

  lemma IndexIsNat(key: string)
    requires IsIndex(key)
    ensures Decimal(key) >= 0
  {
    DigitsOfDecimal(key);
  }

  /** After any history, subscriptions whose ids spell indices are searched first, in increasing order. */
  lemma IndicesComeFirst(run: seq<Action>, p: SocketId, i: nat, j: nat, n: nat) returns (m: nat)
    requires Legal(run) && p in After(run).subs && i < j < |After(run).subs[p]|
    requires Indexes(After(run).subs[p][j].0, n)
    ensures Indexes(After(run).subs[p][i].0, m) && m < n
  {
    hide IsIndex, Decimal, Indexes, After, Legal, InOrder;
    var subs := After(run).subs[p];
    AlwaysInOrder(run, p);
    OrderedPairs(subs, i, j);
    IndexMeans(subs[j].0, n);
    IndexIsNat(subs[i].0);
    m := Decimal(subs[i].0);
    IndexMeans(subs[i].0, m);
  }

  /** A new subscription under any other id comes last; one that is replaced keeps its place, and one that is
      closed leaves the others in theirs. */
  lemma {:induction false} OthersInOrderOfOpening(subs: Subs, key: string, filters: seq<Json>)
    requires forall n: nat :: !Indexes(key, n)
    requires key != PROTO && Find(subs, key).None?
    ensures Assign(subs, key, filters) == subs + [(key, filters)]
  {
    hide Indexes;
    if IsIndex(key) {
      DigitsOfDecimal(key);
      IndexMeans(key, Decimal(key));
    }
    InsertedLast(subs, key, filters);
  }

  lemma {:induction false} InsertedLast(subs: Subs, key: string, filters: seq<Json>)
    requires !IsIndex(key)
    ensures Insert(subs, key, filters) == subs + [(key, filters)]
  {
    hide IsIndex;
    if subs != [] {
      InsertedLast(subs[1..], key, filters);
    }
  }

  lemma {:induction false} ReplacedInPlace(subs: Subs, key: string, filters: seq<Json>) returns (i: nat)
    requires Find(subs, key).Some? && key != PROTO
    ensures i < |subs| && subs[i].0 == key && Assign(subs, key, filters) == subs[i := (key, filters)]
  {
    if subs[0].0 == key {
      i := 0;
    } else {
      i := ReplacedInPlace(subs[1..], key, filters);
      i := i + 1;
    }
  }

  lemma {:induction false} ClosedInPlace(subs: Subs, key: string) returns (i: nat)
    requires Find(subs, key).Some?
    ensures i < |subs| && subs[i].0 == key && Delete(subs, key) == subs[..i] + subs[i + 1..]
  {
    if subs[0].0 == key {
      i := 0;
    } else {
      i := ClosedInPlace(subs[1..], key);
      i := i + 1;
    }
  }
}
