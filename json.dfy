/**
 * Parsed JSON values and the depth-first search `findArrayInJson`
 * (server.js:265-274) that picks the array out of a model's reply.
 */
module JsonValues {
  import opened Wrappers

  /**
   * A value produced by `JSON.parse`. An object's members are listed in the
   * order in which a `for...in` loop enumerates the parsed object's keys.
   * Numbers are kept as their literal text; nothing here computes with them.
   */
  datatype Json =
    | JNull
    | JBool(b: bool)
    | JNumber(literal: string)
    | JString(s: string)
    | JArray(items: seq<Json>)
    | JObject(members: seq<(string, Json)>)

  /** Null, booleans, numbers and strings: the values that are not containers. */
  predicate IsScalar(j: Json) {
    j.JNull? || j.JBool? || j.JNumber? || j.JString?
  }

  /** Every value of the tree, a node before its children, children in order (pre-order). */
  function Subterms(j: Json): (s: seq<Json>)
    ensures |s| >= 1 && s[0] == j
    decreases j
  {
    match j
    case JArray(items) => [j] + ItemsSubterms(items)
    case JObject(members) => [j] + MembersSubterms(members)
    case _ => [j]
  }

  function ItemsSubterms(items: seq<Json>): seq<Json>
    decreases items
  {
    if items == [] then [] else Subterms(items[0]) + ItemsSubterms(items[1..])
  }

  function MembersSubterms(members: seq<(string, Json)>): seq<Json>
    decreases members
  {
    if members == [] then []
    else
      var m := members[0];
      assert m.1 < m;
      Subterms(m.1) + MembersSubterms(members[1..])
  }

  /**
   * The reference definition: the first array in a list of values, together
   * with the fact that nothing before it is an array.
   */
  function FirstArray(s: seq<Json>): (r: Option<Json>)
    ensures r.Some? ==>
      exists i :: 0 <= i < |s| && s[i] == r.value && s[i].JArray? &&
        forall k :: 0 <= k < i ==> !s[k].JArray?
    ensures r.None? <==> forall k :: 0 <= k < |s| ==> !s[k].JArray?
  {
    if s == [] then None
    else if s[0].JArray? then Some(s[0])
    else
      var r := FirstArray(s[1..]);
      assert forall k :: 1 <= k < |s| ==> s[k] == s[1..][k - 1];
      r
  }

  lemma {:induction false} FirstArrayAppend(a: seq<Json>, b: seq<Json>)
    ensures FirstArray(a + b) == if FirstArray(a).Some? then FirstArray(a) else FirstArray(b)
  {
    if a != [] {
      assert (a + b)[1..] == a[1..] + b;
      FirstArrayAppend(a[1..], b);
    } else {
      assert a + b == b;
    }
  }

  /**
   * findArrayInJson: an array is returned as it is (even an empty one),
   * an object is searched member by member, and every scalar gives null.
   */
  function FindArray(j: Json): (r: Option<Json>)
    ensures j.JArray? ==> r == Some(j)
    ensures IsScalar(j) ==> r == None
    ensures r.Some? ==> r.value.JArray?
    decreases j
  {
    match j
    case JArray(_) => Some(j)
    case JObject(members) => FindInMembers(members)
    case _ => None
  }

  /**
   * The `for...in` loop of findArrayInJson: the first non-null result over the
   * member values in key order, or null when every member gives null.
   */
  function FindInMembers(members: seq<(string, Json)>): (r: Option<Json>)
    ensures r.Some? ==> r.value.JArray?
    decreases members
  {
    if members == [] then None
    else
      var m := members[0];
      assert m.1 < m;
      var found := FindArray(m.1);
      if found.Some? then found else FindInMembers(members[1..])
  }

  /**
   * On an object, findArrayInJson gives null exactly when every member value
   * gives null, and otherwise the result of the first member value that does
   * not, in key order.
   */
  lemma {:induction false} FindArrayInObject(members: seq<(string, Json)>)
    ensures FindArray(JObject(members)).None? <==>
      forall k :: 0 <= k < |members| ==> FindArray(members[k].1).None?
    ensures FindArray(JObject(members)).Some? ==>
      exists i :: 0 <= i < |members| && FindArray(members[i].1) == FindArray(JObject(members)) &&
        forall k :: 0 <= k < i ==> FindArray(members[k].1).None?
    decreases members
  {
    if members != [] {
      var rest := members[1..];
      FindArrayInObject(rest);
      assert forall k :: 1 <= k < |members| ==> members[k] == rest[k - 1];
      if FindArray(members[0].1).None? && FindArray(JObject(rest)).Some? {
        var i :| 0 <= i < |rest| && FindArray(rest[i].1) == FindArray(JObject(rest)) &&
          forall k :: 0 <= k < i ==> FindArray(rest[k].1).None?;
        assert FindArray(members[i + 1].1) == FindArray(JObject(members));
      }
    }
  }

  /** findArrayInJson finds exactly the first array of the pre-order walk. */
  lemma {:induction false} FindArrayIsFirstArray(j: Json)
    ensures FindArray(j) == FirstArray(Subterms(j))
    decreases j
  {
    match j
    case JArray(_) =>
    case JObject(members) =>
      FindInMembersIsFirstArray(members);
      assert Subterms(j) == [j] + MembersSubterms(members);
      FirstArrayAppend([j], MembersSubterms(members));
    case _ =>
  }

  lemma {:induction false} FindInMembersIsFirstArray(members: seq<(string, Json)>)
    ensures FindInMembers(members) == FirstArray(MembersSubterms(members))
    decreases members
  {
    if members != [] {
      var m := members[0];
      assert m.1 < m;
      FindArrayIsFirstArray(m.1);
      FindInMembersIsFirstArray(members[1..]);
      FirstArrayAppend(Subterms(m.1), MembersSubterms(members[1..]));
    }
  }

  /**
   * What findArrayInJson promises its caller: a non-null result is an array
   * that occurs in the input, and null comes back exactly when the input
   * holds no array anywhere.
   */
  lemma FindArrayFindsSubterm(j: Json)
    ensures FindArray(j).Some? ==> FindArray(j).value in Subterms(j)
    ensures FindArray(j).None? <==> forall k :: 0 <= k < |Subterms(j)| ==> !Subterms(j)[k].JArray?
  {
    FindArrayIsFirstArray(j);
  }

  /** An array wrapped in objects, as in {"data": {"result": [...]}}, is found. */
  lemma NestedArrayIsFound(items: seq<Json>)
    ensures FindArray(JObject([("data", JObject([("result", JArray(items))]))])) == Some(JArray(items))
  {
    var inner: seq<(string, Json)> := [("result", JArray(items))];
    assert FindInMembers(inner) == Some(JArray(items));
    var outer: seq<(string, Json)> := [("data", JObject(inner))];
    assert FindArray(outer[0].1) == Some(JArray(items));
  }

  /**
   * After a scalar under the first key, of the arrays under the second and
   * third keys the earlier one wins.
   */
  lemma EarlierKeyWins(before: Json, first: seq<Json>, second: seq<Json>)
    requires IsScalar(before)
    ensures FindArray(JObject([("a", before), ("b", JArray(first)), ("c", JArray(second))])) == Some(JArray(first))
  {
    var members: seq<(string, Json)> := [("a", before), ("b", JArray(first)), ("c", JArray(second))];
    assert members[1..] == [("b", JArray(first)), ("c", JArray(second))];
    assert FindInMembers(members[1..]) == Some(JArray(first));
  }
}
