/** The tie-break helpers and the dictionary-structure check shared by the service. */
module Common {
  import opened Outcomes

  // ---------------------------------------------------------------------------
  // get_n_top_elements_of_most_common_list
  // ---------------------------------------------------------------------------

  /** How many leading (item, count) pairs share the count of the first pair. */
  function TopCount<K, V(==)>(elements: seq<(K, V)>): (n: nat)
    requires |elements| > 0
    ensures 1 <= n <= |elements|
    ensures forall k :: 0 <= k < n ==> elements[k].1 == elements[0].1
    ensures n < |elements| ==> elements[n].1 != elements[n - 1].1
  {
    if |elements| == 1 || elements[1].1 != elements[0].1 then 1
    else
      var rest := elements[1..];
      assert forall k :: 1 <= k < |elements| ==> elements[k] == rest[k - 1];
      1 + TopCount(rest)
  }

  /** The three properties of TopCount determine it: any n that has them is TopCount. */
  lemma TopCountIsUnique<K, V>(elements: seq<(K, V)>, n: nat)
    requires 1 <= n <= |elements|
    requires forall k :: 0 <= k < n ==> elements[k].1 == elements[0].1
    requires n < |elements| ==> elements[n].1 != elements[n - 1].1
    ensures TopCount(elements) == n
  {
  }

  /** A list whose counts are all equal is one single top group. */
  lemma TopCountOfUniformList<K, V>(elements: seq<(K, V)>)
    requires |elements| > 0
    requires forall k :: 0 <= k < |elements| ==> elements[k].1 == elements[0].1
    ensures TopCount(elements) == |elements|
  {
  }

  /** `get_n_top_elements_of_most_common_list`'s index loop: count while neighbours are equal,
      return at the first difference. An empty list raises IndexError. */
  method GetNTopElementsOfMostCommonList<K, V(==)>(elements: seq<(K, V)>) returns (r: Result<nat>)
    ensures |elements| == 0 ==> r == Err(IndexError)
    ensures |elements| > 0 ==> r == Ok(TopCount(elements))
  {
    if |elements| == 0 {
      return Err(IndexError);
    }
    var n := 1;
    var i := 1;
    while i < |elements|
      invariant 1 <= i <= |elements|
      invariant n == i
      invariant forall k :: 0 <= k < i ==> elements[k].1 == elements[0].1
    {
      if elements[i].1 == elements[i - 1].1 {
        n := n + 1;
      } else {
        TopCountIsUnique(elements, n);
        return Ok(n);
      }
      i := i + 1;
    }
    TopCountIsUnique(elements, n);
    return Ok(n);
  }

  // ---------------------------------------------------------------------------
  // first_elements_having_same_value
  // ---------------------------------------------------------------------------

  /** The longest prefix of `elements` whose members all equal the first one. */
  function LeadingRun<T(==)>(elements: seq<T>): (r: seq<T>)
    ensures |r| <= |elements| && r == elements[..|r|]
    ensures |elements| > 0 ==> |r| >= 1
    ensures forall k :: 0 <= k < |r| ==> r[k] == elements[0]
    ensures 0 < |r| < |elements| ==> elements[|r|] != r[|r| - 1]
  {
    if |elements| <= 1 then elements
    else if elements[1] != elements[0] then [elements[0]]
    else
      var rest := elements[1..];
      assert forall k :: 1 <= k < |elements| ==> elements[k] == rest[k - 1];
      [elements[0]] + LeadingRun(rest)
  }

  /** The properties of LeadingRun determine it. */
  lemma {:induction false} LeadingRunIsUnique<T>(elements: seq<T>, p: seq<T>)
    requires |p| <= |elements| && p == elements[..|p|]
    requires |elements| > 0 ==> |p| >= 1
    requires forall k :: 0 <= k < |p| ==> p[k] == elements[0]
    requires 0 < |p| < |elements| ==> elements[|p|] != p[|p| - 1]
    ensures LeadingRun(elements) == p
  {
    var r := LeadingRun(elements);
    assert forall k :: 0 <= k < |p| ==> elements[k] == elements[0];
    assert forall k :: 0 <= k < |r| ==> elements[k] == elements[0];
    if 0 < |r| < |elements| {
      assert elements[|r|] != elements[0];
    }
    if 0 < |p| < |elements| {
      assert elements[|p|] != elements[0];
    }
  }

  /** A list of pairwise distinct values has a leading run of length one. */
  lemma LeadingRunOfDistinct<T>(elements: seq<T>)
    requires |elements| > 0
    requires forall i, j :: 0 <= i < j < |elements| ==> elements[i] != elements[j]
    ensures LeadingRun(elements) == [elements[0]]
  {
  }

  /** `first_elements_having_same_value`'s index loop over a non-empty list: extend the run while
      neighbours are equal. The empty list gives the empty list. */
  method FirstElementsHavingSameValue<T(==)>(elements: seq<T>) returns (r: seq<T>)
    ensures r == LeadingRun(elements)
  {
    if |elements| == 0 {
      return [];
    }
    var l := |elements|;
    if l == 1 {
      return elements;
    }
    var idx := 1;
    var i := 1;
    while i < l
      invariant 1 <= i <= l
      invariant idx == i
      invariant forall k :: 0 <= k < i ==> elements[k] == elements[0]
    {
      if elements[i] == elements[i - 1] {
        idx := idx + 1;
      } else {
        LeadingRunIsUnique(elements, elements[..idx]);
        return elements[..idx];
      }
      i := i + 1;
    }
    LeadingRunIsUnique(elements, elements);
    return elements;
  }

  // ---------------------------------------------------------------------------
  // is_dict_structure_correct
  // ---------------------------------------------------------------------------

  /** An empty dict is refused with ValueError before its keys are looked at; a dict whose key set
      is not exactly `desiredKeys` is refused with KeyError; otherwise the answer is true. */
  function IsDictStructureCorrect<V>(data: map<string, V>, desiredKeys: set<string>): (r: Result<bool>)
    ensures data == map[] ==> r == Err(ValueError)
    ensures data != map[] && data.Keys != desiredKeys ==> r == Err(KeyError)
    ensures r.Ok? <==> data != map[] && data.Keys == desiredKeys
    ensures r.Ok? ==> r.value
  {
    if data == map[] then Err(ValueError)
    else if desiredKeys != data.Keys then Err(KeyError)
    else Ok(true)
  }
}
