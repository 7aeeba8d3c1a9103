/**
 * The tagging system: one counter handing out unique tags to new gene and
 * antigen variants, reached through a singleton pointer.
 */
module Tagging {
  /** The counter object. */
  class TaggingSystem {
    var theTag: nat

    /** The constructor leaves the counter as it finds it: its value is unspecified. */
    constructor ()
    {
    }

    /** `getTag`: increments the counter and returns the new value. */
    method GetTag() returns (t: nat)
      modifies this
      ensures theTag == old(theTag) + 1
      ensures t == theTag
    {
      theTag := theTag + 1;
      t := theTag;
    }

    /** `setValue`: tagging continues from v. */
    method SetValue(v: nat)
      modifies this
      ensures theTag == v
    {
      theTag := v;
    }
  }

  /** The static storage of the singleton pointer. */
  class TaggingHolder {
    var instance: TaggingSystem?

    constructor ()
      ensures instance == null
    {
      instance := null;
    }

    /** `getInstance`: builds an instance only when there is none, else returns the same one. */
    method GetInstance() returns (r: TaggingSystem)
      modifies this
      ensures old(instance) != null ==> r == old(instance)
      ensures old(instance) == null ==> fresh(r)
      ensures instance == r
    {
      if instance == null {
        instance := new TaggingSystem();
      }
      r := instance;
    }

    /** `release`: drops the instance, so the next `getInstance` builds a new one. */
    method Release()
      modifies this
      ensures instance == null
    {
      if instance != null {
        instance := null;
      }
    }
  }

  /** The tags n successive `getTag` calls return, starting from counter value c. */
  function Tags(c: nat, n: nat): (r: seq<nat>)
    ensures |r| == n
    decreases n
  {
    if n == 0 then [] else [c + 1] + Tags(c + 1, n - 1)
  }

  /** Successive tags are strictly increasing and all above the starting counter. */
  lemma {:induction false} TagsIncreasing(c: nat, n: nat)
    ensures forall i, j :: 0 <= i < j < n ==> Tags(c, n)[i] < Tags(c, n)[j]
    ensures forall i :: 0 <= i < n ==> Tags(c, n)[i] == c + 1 + i
    decreases n
  {
    if n > 0 {
      TagsIncreasing(c + 1, n - 1);
      var r := Tags(c, n);
      assert r[1..] == Tags(c + 1, n - 1);
    }
  }

  /** Two successive `getTag` calls return increasing tags, one apart. */
  method GetTagTwice(ts: TaggingSystem) returns (a: nat, b: nat)
    modifies ts
    ensures [a, b] == Tags(old(ts.theTag), 2)
    ensures a < b
  {
    a := ts.GetTag();
    b := ts.GetTag();
  }

  /** Releasing the instance makes the next `getInstance` build a new one. */
  method ReleaseThenGet(h: TaggingHolder) returns (r: TaggingSystem)
    modifies h
    ensures fresh(r) && h.instance == r
  {
    h.Release();
    r := h.GetInstance();
  }

  /** After `setValue(v)`, the next tag returned is v + 1. */
  method SetThenGet(ts: TaggingSystem, v: nat) returns (t: nat)
    modifies ts
    ensures t == v + 1 && ts.theTag == v + 1
  {
    ts.SetValue(v);
    t := ts.GetTag();
  }
}
