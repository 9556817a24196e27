/**
  The de-duplication rule of attribute completion: a candidate is dropped when
  its display text is already a key of the tag's existing-attributes map, and
  everything else is kept in provider order.
 */
module AttributeFilter {
  import opened Wrappers
  import opened CompletionData

  /** The candidate names an attribute the tag already has. A null map holds no attribute. */
  predicate AlreadyPresent(existingAtts: Option<map<string, string>>, c: Candidate) {
    existingAtts.Some? && c.displayText in existingAtts.value
  }

  /** The provider data with every already-present attribute removed. */
  function WithoutExisting(data: seq<Candidate>, existingAtts: Option<map<string, string>>): (r: seq<Candidate>)
    ensures |r| <= |data|
    ensures forall i :: 0 <= i < |r| ==> !AlreadyPresent(existingAtts, r[i])
    decreases |data|
  {
    if data == [] then []
    else
      var last := data[|data| - 1];
      WithoutExisting(data[..|data| - 1], existingAtts) + (if AlreadyPresent(existingAtts, last) then [] else [last])
  }

  /** `a` is `b` with some entries removed and the rest left in their order. */
  ghost predicate IsSubsequence<T>(a: seq<T>, b: seq<T>)
    decreases |b|
  {
    if a == [] then true
    else if b == [] then false
    else
      || (a[|a| - 1] == b[|b| - 1] && IsSubsequence(a[..|a| - 1], b[..|b| - 1]))
      || IsSubsequence(a, b[..|b| - 1])
  }

  /** Filtering preserves the provider's order. */
  lemma {:induction false} FilterIsSubsequence(data: seq<Candidate>, existingAtts: Option<map<string, string>>)
    ensures IsSubsequence(WithoutExisting(data, existingAtts), data)
    decreases |data|
  {
    if data != [] {
      var init := data[..|data| - 1];
      var last := data[|data| - 1];
      var r := WithoutExisting(data, existingAtts);
      FilterIsSubsequence(init, existingAtts);
      if !AlreadyPresent(existingAtts, last) {
        assert r[..|r| - 1] == WithoutExisting(init, existingAtts);
      } else if r != [] {
        assert r == WithoutExisting(init, existingAtts);
      }
    }
  }

  /**
    Filtering keeps every candidate that is not already present, as many times
    as the provider lists it, and keeps no candidate that is.
   */
  lemma {:induction false} FilterKeepsAbsent(data: seq<Candidate>, existingAtts: Option<map<string, string>>)
    ensures var r := WithoutExisting(data, existingAtts);
            forall c :: multiset(r)[c] == if AlreadyPresent(existingAtts, c) then 0 else multiset(data)[c]
    decreases |data|
  {
    if data != [] {
      var init := data[..|data| - 1];
      var last := data[|data| - 1];
      FilterKeepsAbsent(init, existingAtts);
      assert data == init + [last];
      var r := WithoutExisting(data, existingAtts);
      forall c ensures multiset(r)[c] == if AlreadyPresent(existingAtts, c) then 0 else multiset(data)[c] {
        if AlreadyPresent(existingAtts, c) {
          assert c !in r;
        }
      }
    }
  }

  /** With a null existing-attributes map the whole provider list is kept. */
  lemma {:induction false} NullMapKeepsAll(data: seq<Candidate>)
    ensures WithoutExisting(data, None) == data
    decreases |data|
  {
    if data != [] {
      var init := data[..|data| - 1];
      NullMapKeepsAll(init);
      assert WithoutExisting(data, None) == WithoutExisting(init, None) + [data[|data| - 1]];
      assert data == init + [data[|data| - 1]];
    }
  }
}
