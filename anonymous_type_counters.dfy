/**
 * Numbering of anonymous classes (AnonymousTypeCountersImpl): one counter per
 * enclosing type, created at zero on first use and incremented before its
 * value is returned, with the wrap-around of a Java `int`.
 */
module AnonymousTypeCounters {
  import opened JavaLang
  import opened ParserTypes

  /** The value of an `int` counter after `k` increments from zero. */
  function Wrap32(k: nat): (r: Int32)
    ensures 1 <= k <= INT_MAX ==> r as int == k
  {
    (((k + 0x8000_0000) % 0x1_0000_0000) - 0x8000_0000) as Int32
  }

  /** `incrementAndGet` on an `int`: the largest value is followed by the smallest. */
  function Increment(i: Int32): (r: Int32)
    ensures i as int < INT_MAX ==> r == i + 1
    ensures i as int == INT_MAX ==> r as int == INT_MIN
  {
    if i == 0x7fff_ffff then -0x8000_0000 else i + 1
  }

  /** One more increment of a counter. */
  lemma WrapStep(k: nat)
    ensures Wrap32(k + 1) == Increment(Wrap32(k))
  {
    var m := (k + 0x8000_0000) % 0x1_0000_0000;
    if m == 0x1_0000_0000 - 1 {
      assert (k + 1 + 0x8000_0000) % 0x1_0000_0000 == 0;
    } else {
      assert (k + 1 + 0x8000_0000) % 0x1_0000_0000 == m + 1;
    }
  }

  class AnonymousTypeCounters {
    var anonymousClassCounter: map<TypeInfo, Int32>
    /** Every type `newIndex` has been asked for, as often as it was asked. */
    ghost var requests: multiset<TypeInfo>

    /** A counter exists exactly for the types asked for, and holds how often each was asked. */
    ghost predicate Valid()
      reads this
    {
      forall t :: (t in anonymousClassCounter <==> requests[t] > 0) &&
                  (t in anonymousClassCounter ==> anonymousClassCounter[t] == Wrap32(requests[t]))
    }

    constructor ()
      ensures Valid() && anonymousClassCounter == map[] && requests == multiset{}
    {
      anonymousClassCounter := map[];
      requests := multiset{};
    }

    /** The next index for an anonymous class in `typeInfo`: 1 the first time, then one more each time. */
    method NewIndex(typeInfo: TypeInfo) returns (r: Int32)
      requires Valid()
      modifies this
      ensures Valid()
      ensures requests == old(requests) + multiset{typeInfo}
      ensures r == Wrap32(requests[typeInfo])
      ensures typeInfo !in old(anonymousClassCounter) ==> r == 1
      ensures typeInfo in old(anonymousClassCounter) ==> r == Increment(old(anonymousClassCounter)[typeInfo])
      ensures anonymousClassCounter == old(anonymousClassCounter)[typeInfo := r]
      ensures requests[typeInfo] <= INT_MAX ==> r >= 1
    {
      var counter := if typeInfo in anonymousClassCounter then anonymousClassCounter[typeInfo] else 0;
      ghost var k := requests[typeInfo];
      assert Wrap32(0) == 0;
      assert counter == Wrap32(k);
      WrapStep(k);
      r := Increment(counter);
      Record(typeInfo, r, k);
    }

    /** Stores the new value of the counter of `typeInfo` and notes the request. */
    method Record(typeInfo: TypeInfo, r: Int32, ghost k: nat)
      requires Valid() && k == requests[typeInfo] && r == Wrap32(k + 1)
      modifies this
      ensures Valid()
      ensures requests == old(requests) + multiset{typeInfo}
      ensures anonymousClassCounter == old(anonymousClassCounter)[typeInfo := r]
    {
      anonymousClassCounter := anonymousClassCounter[typeInfo := r];
      requests := requests + multiset{typeInfo};
      forall t
        ensures (t in anonymousClassCounter <==> requests[t] > 0) &&
                (t in anonymousClassCounter ==> anonymousClassCounter[t] == Wrap32(requests[t]))
      {
        if t != typeInfo {
          assert requests[t] == old(requests)[t];
        }
      }
    }
  }

  /** Two types are numbered independently: a, b, a gives 1, 1, 2. */
  method IndependentCounters(a: TypeInfo, b: TypeInfo) returns (first: Int32, other: Int32, second: Int32)
    requires a != b
    ensures first == 1 && other == 1 && second == 2
  {
    var counters := new AnonymousTypeCounters();
    first := counters.NewIndex(a);
    other := counters.NewIndex(b);
    second := counters.NewIndex(a);
  }
}
