/** The in-place insertion sort that puts a parsed region's channels into ascending order (mlan_11d.c). */
module CountrySort {

  datatype ChanPower = ChanPower(chan: nat, band: nat, pwr: nat, apSeen: bool)

  ghost predicate Ascending(s: seq<ChanPower>) {
    forall i, j :: 0 <= i < j < |s| ==> s[i].chan <= s[j].chan
  }

  /** The entries for one channel, in order. */
  function Only(s: seq<ChanPower>, c: nat): seq<ChanPower> {
    if s == [] then [] else Only(s[..|s| - 1], c) + (if s[|s| - 1].chan == c then [s[|s| - 1]] else [])
  }

  /** Inserting from the right, past every larger channel. */
  function Insert(s: seq<ChanPower>, x: ChanPower): (r: seq<ChanPower>)
    ensures |r| == |s| + 1
  {
    if s == [] || s[|s| - 1].chan <= x.chan then s + [x]
    else Insert(s[..|s| - 1], x) + [s[|s| - 1]]
  }

  function Sorted(s: seq<ChanPower>): (r: seq<ChanPower>)
    ensures |r| == |s|
  {
    if s == [] then [] else Insert(Sorted(s[..|s| - 1]), s[|s| - 1])
  }

  lemma {:induction false} OnlyConcat(a: seq<ChanPower>, b: seq<ChanPower>, c: nat)
    ensures Only(a + b, c) == Only(a, c) + Only(b, c)
  {
    if b == [] {
      assert a + b == a;
    } else {
      assert (a + b)[..|a + b| - 1] == a + b[..|b| - 1];
      OnlyConcat(a, b[..|b| - 1], c);
    }
  }

  /** Insertion keeps the order, when there is one, and puts `x` after its equals. */
  lemma {:induction false} InsertOrders(s: seq<ChanPower>, x: ChanPower)
    requires Ascending(s)
    ensures Ascending(Insert(s, x))
    ensures forall i :: 0 <= i <= |s| ==> Insert(s, x)[i] == x || Insert(s, x)[i] in s
  {
    if s != [] && s[|s| - 1].chan > x.chan {
      InsertOrders(s[..|s| - 1], x);
    }
  }

  lemma OnlyOne(x: ChanPower, c: nat)
    ensures Only([x], c) == if x.chan == c then [x] else []
  {
    assert [x][..0] == [];
  }

  lemma SwapEmpty<T>(a: seq<T>, b: seq<T>, c: seq<T>)
    requires b == [] || c == []
    ensures a + b + c == a + c + b
  {
  }

  lemma {:induction false} InsertKeeps(s: seq<ChanPower>, x: ChanPower, c: nat)
    requires Ascending(s)
    ensures Only(Insert(s, x), c) == Only(s, c) + Only([x], c)
  {
    hide Only;
    if s == [] || s[|s| - 1].chan <= x.chan {
      OnlyConcat(s, [x], c);
    } else {
      var front, last := s[..|s| - 1], s[|s| - 1];
      InsertKeeps(front, x, c);
      hide Ascending;
      OnlyConcat(Insert(front, x), [last], c);
      assert s == front + [last];
      OnlyConcat(front, [last], c);
      OnlyOne(x, c);
      OnlyOne(last, c);
      SwapEmpty(Only(front, c), Only([x], c), Only([last], c));
    }
  }

  /** Sorting is a stable permutation: channel by channel, the entries are the same in the same order. */
  lemma {:induction false} SortedIsStable(s: seq<ChanPower>)
    ensures Ascending(Sorted(s))
    ensures forall c :: Only(Sorted(s), c) == Only(s, c)
  {
    if s != [] {
      var front, x := s[..|s| - 1], s[|s| - 1];
      SortedIsStable(front);
      InsertOrders(Sorted(front), x);
      forall c
        ensures Only(Sorted(s), c) == Only(s, c)
      {
        InsertKeeps(Sorted(front), x, c);
        assert s == front + [x];
        OnlyConcat(front, [x], c);
      }
    }
  }

  lemma {:induction false} OnlyMember(s: seq<ChanPower>, i: nat)
    requires i < |s|
    ensures Only(s, s[i].chan) != []
  {
    if i < |s| - 1 {
      OnlyMember(s[..|s| - 1], i);
    }
  }

  lemma {:induction false} OnlyEmpty(s: seq<ChanPower>, c: nat)
    requires forall i :: 0 <= i < |s| ==> s[i].chan != c
    ensures Only(s, c) == []
  {
    if s != [] {
      OnlyEmpty(s[..|s| - 1], c);
    }
  }

  /** In an ascending list the largest channel is the one at the end. */
  lemma LargestSame(a: seq<ChanPower>, b: seq<ChanPower>)
    requires Ascending(a) && Ascending(b) && a != [] && b != []
    requires forall c :: Only(a, c) == Only(b, c)
    ensures a[|a| - 1].chan == b[|b| - 1].chan
  {
    hide Only;
    var x, y := a[|a| - 1].chan, b[|b| - 1].chan;
    OnlyMember(a, |a| - 1);
    OnlyMember(b, |b| - 1);
    assert Only(a, x) == Only(b, x) && Only(a, y) == Only(b, y);
    if x > y {
      OnlyEmpty(b, x);
    } else if y > x {
      OnlyEmpty(a, y);
    }
  }

  lemma LastSame<T>(p: seq<T>, x: T, q: seq<T>, y: T)
    requires p + [x] == q + [y]
    ensures p == q && x == y
  {
    assert (p + [x])[|p|] == x && (q + [y])[|q|] == y;
    assert p == (p + [x])[..|p|] && q == (q + [y])[..|q|];
  }

  lemma OnlyLast(s: seq<ChanPower>, c: nat)
    requires s != []
    ensures Only(s, c) == if s[|s| - 1].chan == c then Only(s[..|s| - 1], c) + [s[|s| - 1]] else Only(s[..|s| - 1], c)
  {
  }

  /** There is only one stable ascending arrangement, so these properties determine the result. */
  lemma {:induction false} StableSortUnique(a: seq<ChanPower>, b: seq<ChanPower>)
    requires Ascending(a) && Ascending(b) && forall c :: Only(a, c) == Only(b, c)
    ensures a == b
    decreases |a|
  {
    if a == [] {
      if b != [] {
        OnlyMember(b, 0);
      }
    } else if b == [] {
      OnlyMember(a, 0);
    } else {
      LargestSame(a, b);
      var x, y := a[|a| - 1], b[|b| - 1];
      var a1, b1 := a[..|a| - 1], b[..|b| - 1];
      forall c
        ensures Only(a1, c) == Only(b1, c)
        ensures c == x.chan ==> x == y
      {
        assert Only(a, c) == Only(b, c);
        OnlyLast(a, c);
        OnlyLast(b, c);
        if c == x.chan {
          LastSame(Only(a1, c), x, Only(b1, c), y);
        }
      }
      assert Only(a1, x.chan) == Only(b1, x.chan);
      StableSortUnique(a1, b1);
      assert a == a1 + [x] && b == b1 + [x];
    }
  }

  /** Where the inner loop stops, everything from there on being larger. */
  lemma {:induction false} InsertAt(s: seq<ChanPower>, x: ChanPower, j: nat)
    requires j <= |s| && (j > 0 ==> s[j - 1].chan <= x.chan)
    requires forall k :: j <= k < |s| ==> s[k].chan > x.chan
    ensures Insert(s, x) == s[..j] + [x] + s[j..]
    decreases |s| - j
  {
    if j < |s| {
      var front := s[..|s| - 1];
      InsertAt(front, x, j);
      assert front[..j] == s[..j];
      assert s[j..] == front[j..] + [s[|s| - 1]];
    } else {
      assert s[..j] == s && s[j..] == [];
    }
  }

  /** What the inner loop leaves, element by element. */
  lemma InsertedAt(s: seq<ChanPower>, x: ChanPower, j: nat, r: seq<ChanPower>)
    requires j <= |s| && (j > 0 ==> s[j - 1].chan <= x.chan)
    requires forall k :: j <= k < |s| ==> s[k].chan > x.chan
    requires |r| == |s| + 1 && r[j] == x
    requires forall k :: 0 <= k < j ==> r[k] == s[k]
    requires forall k :: j <= k < |s| ==> r[k + 1] == s[k]
    ensures r == Insert(s, x)
  {
    hide Insert;
    InsertAt(s, x, j);
    var w := s[..j] + [x] + s[j..];
    forall k | 0 <= k < |r|
      ensures r[k] == w[k]
    {
      if k > j {
        assert r[k - 1 + 1] == s[k - 1];
      }
    }
    assert r == w;
  }

  lemma SortedStep(s: seq<ChanPower>, i: nat)
    requires i < |s|
    ensures Sorted(s[..i + 1]) == Insert(Sorted(s[..i]), s[i])
  {
    assert s[..i + 1][..i] == s[..i];
  }

  /** wlan_11d_sort_parsed_region_chan */
  method SortParsedRegionChan(chanPwr: array<ChanPower>, noOfChan: nat)
    requires noOfChan <= chanPwr.Length
    modifies chanPwr
    ensures chanPwr[..noOfChan] == Sorted(old(chanPwr[..noOfChan]))
    ensures chanPwr[noOfChan..] == old(chanPwr[noOfChan..])
  {
    ghost var was := chanPwr[..];
    for i := 0 to noOfChan
      invariant chanPwr[..i] == Sorted(was[..i])
      invariant chanPwr[i..] == was[i..]
    {
      SortedStep(was, i);
      assert chanPwr[i] == chanPwr[i..][0] == was[i];
      InsertEntry(chanPwr, i);
      assert chanPwr[i + 1..] == was[i..][1..] == was[i + 1..];
    }
  }

  /** One round of the outer loop: entry `i` moves down past the larger ones. */
  method InsertEntry(chanPwr: array<ChanPower>, i: nat)
    requires i < chanPwr.Length
    modifies chanPwr
    ensures chanPwr[..i + 1] == Insert(old(chanPwr[..i]), old(chanPwr[i]))
    ensures chanPwr[i + 1..] == old(chanPwr[i + 1..])
  {
    ghost var s := chanPwr[..i];
    var temp := chanPwr[i];
    var j := i;
    while j > 0 && chanPwr[j - 1].chan > temp.chan
      invariant 0 <= j <= i
      invariant forall k :: 0 <= k < j ==> chanPwr[k] == s[k]
      invariant forall k :: j <= k < i ==> chanPwr[k + 1] == s[k] && s[k].chan > temp.chan
      invariant chanPwr[i + 1..] == old(chanPwr[i + 1..])
    {
      chanPwr[j] := chanPwr[j - 1];
      j := j - 1;
    }
    chanPwr[j] := temp;
    InsertedAt(s, temp, j, chanPwr[..i + 1]);
  }
}
