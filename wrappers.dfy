/** Optional values: Python's `None` versus a present value. */
module Wrappers {

  datatype Option<+T> = None | Some(value: T) {

    /** The value, or `default` when absent (Python's `x if x is not None else default`). */
    function GetOr(default: T): T {
      match this
      case Some(v) => v
      case None => default
    }
  }

  /** Python truthiness of an optional string: present and non-empty. */
  predicate Truthy(s: Option<string>) {
    s.Some? && s.value != ""
  }

  /** Python truthiness of an optional integer: present and not 0. */
  predicate AgeTruthy(a: Option<int>) {
    a.Some? && a.value != 0
  }

  /** The values of the present elements, in order. */
  function Somes<T>(os: seq<Option<T>>): (r: seq<T>)
    ensures |r| <= |os|
  {
    if os == [] then []
    else (if os[0].Some? then [os[0].value] else []) + Somes(os[1..])
  }

  /** Appending an element appends its value when it is present. */
  lemma {:induction false} SomesSnoc<T>(os: seq<Option<T>>, o: Option<T>)
    ensures Somes(os + [o]) == Somes(os) + (if o.Some? then [o.value] else [])
  {
    if os == [] {
      assert os + [o] == [o];
    } else {
      SomesSnoc(os[1..], o);
      assert (os + [o])[1..] == os[1..] + [o];
    }
  }

  /** One more element of a prefix adds its value when it is present. */
  lemma SomesPrefix<T>(os: seq<Option<T>>, i: nat)
    requires i < |os|
    ensures Somes(os[..i + 1]) == Somes(os[..i]) + (if os[i].Some? then [os[i].value] else [])
  {
    assert os[..i + 1] == os[..i] + [os[i]];
    SomesSnoc(os[..i], os[i]);
  }

  /** The positions, counted from `base`, of the present elements. */
  function Origins<T>(os: seq<Option<T>>, base: nat): (idx: seq<nat>)
    ensures forall k :: 0 <= k < |idx| ==> base <= idx[k] < base + |os|
  {
    if os == [] then []
    else (if os[0].Some? then [base] else []) + Origins(os[1..], base + 1)
  }

  lemma {:induction false} OriginsCount<T>(os: seq<Option<T>>, base: nat)
    ensures |Origins(os, base)| == |Somes(os)|
  {
    if os != [] {
      OriginsCount(os[1..], base + 1);
    }
  }

  /** There is one position for each present element, and the positions increase. */
  lemma {:induction false} OriginsShape<T>(os: seq<Option<T>>, base: nat)
    ensures |Origins(os, base)| == |Somes(os)|
    ensures forall k, l :: 0 <= k < l < |Origins(os, base)| ==> Origins(os, base)[k] < Origins(os, base)[l]
  {
    OriginsCount(os, base);
    if os != [] {
      OriginsShape(os[1..], base + 1);
    }
  }

  /** The `k`-th kept value is the one at the `k`-th position. */
  lemma {:induction false} OriginsPoint<T>(os: seq<Option<T>>, base: nat, k: nat)
    requires k < |Somes(os)|
    ensures |Origins(os, base)| == |Somes(os)|
    ensures os[Origins(os, base)[k] - base] == Some(Somes(os)[k])
  {
    OriginsCount(os, base);
    OriginsCount(os[1..], base + 1);
    var rest := Origins(os[1..], base + 1);
    var kept := Somes(os[1..]);
    if os[0].Some? {
      assert Somes(os) == [os[0].value] + kept;
      assert Origins(os, base) == [base] + rest;
      if k > 0 {
        OriginsPoint(os[1..], base + 1, k - 1);
        assert Origins(os, base)[k] == rest[k - 1];
        assert Somes(os)[k] == kept[k - 1];
        assert os[rest[k - 1] - base] == os[1..][rest[k - 1] - (base + 1)];
      }
    } else {
      assert Somes(os) == kept;
      assert Origins(os, base) == rest;
      OriginsPoint(os[1..], base + 1, k);
      assert os[rest[k] - base] == os[1..][rest[k] - (base + 1)];
    }
  }

  function CountNone<T>(os: seq<Option<T>>): nat {
    if os == [] then 0 else (if os[0].None? then 1 else 0) + CountNone(os[1..])
  }

  /** Each absent element drops out; each present one is kept. */
  lemma {:induction false} SomesCount<T>(os: seq<Option<T>>)
    ensures |Somes(os)| == |os| - CountNone(os)
  {
    if os != [] {
      SomesCount(os[1..]);
    }
  }

  lemma {:induction false} NoNoneCount<T>(os: seq<Option<T>>)
    requires forall i :: 0 <= i < |os| ==> os[i].Some?
    ensures CountNone(os) == 0
  {
    if os != [] {
      NoNoneCount(os[1..]);
    }
  }

  /**
   * Keeping the present values loses nothing and reorders nothing: the `k`-th kept value sits
   * at the `k`-th of a strictly increasing run of positions.
   */
  lemma SomesOrigins<T>(os: seq<Option<T>>)
    ensures var idx := Origins(os, 0);
      && |idx| == |Somes(os)|
      && (forall k :: 0 <= k < |idx| ==> idx[k] < |os| && os[idx[k]] == Some(Somes(os)[k]))
      && (forall k, l :: 0 <= k < l < |idx| ==> idx[k] < idx[l])
  {
    OriginsShape(os, 0);
    forall k | 0 <= k < |Origins(os, 0)|
      ensures os[Origins(os, 0)[k]] == Some(Somes(os)[k])
    {
      OriginsPoint(os, 0, k);
    }
  }
}
