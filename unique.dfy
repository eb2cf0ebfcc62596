/** uniqueList (mate/gfwlist.go): order-preserving deduplication that also
    drops empty strings. */
module Dedup {

  /** The specification: the list scanned left to right, keeping an element
      when it is non-empty and has not been kept before. */
  function Unique(list: seq<string>): seq<string> {
    if list == [] then []
    else
      var kept := Unique(list[..|list| - 1]);
      var v := list[|list| - 1];
      if v == "" || v in kept then kept else kept + [v]
  }

  predicate NoDuplicates(s: seq<string>) {
    forall i, j :: 0 <= i < j < |s| ==> s[i] != s[j]
  }

  /** Index of the first occurrence of x in s. */
  function FirstIndex(s: seq<string>, x: string): (k: nat)
    requires x in s
    ensures k < |s| && s[k] == x && x !in s[..k]
  {
    if s[0] == x then 0 else 1 + FirstIndex(s[1..], x)
  }

  /** uniqueList: a set of the values already kept (`m`) and the list built so
      far (`newList`), filled in one pass. */
  method UniqueList(list: seq<string>) returns (newList: seq<string>)
    ensures newList == Unique(list)
  {
    var m: map<string, bool> := map[];
    newList := [];
    for i := 0 to |list|
      invariant newList == Unique(list[..i])
      invariant forall v :: v in m ==> m[v]
      invariant forall v :: v in m <==> v in newList
    {
      var v := list[i];
      assert list[..i + 1][..i] == list[..i];
      if (v in m && m[v]) || v == "" {
        continue;
      }
      newList := newList + [v];
      m := m[v := true];
    }
    assert list[..|list|] == list;
  }

  /** The result holds exactly the non-empty elements of the input. */
  lemma {:induction false} UniqueMembers(list: seq<string>, x: string)
    ensures x in Unique(list) <==> x in list && x != ""
  {
    if list != [] {
      var init := list[..|list| - 1];
      UniqueMembers(init, x);
      assert list == init + [list[|list| - 1]];
    }
  }

  /** The result has no duplicate and no empty string. */
  lemma {:induction false} UniqueIsDistinct(list: seq<string>)
    ensures NoDuplicates(Unique(list))
    ensures "" !in Unique(list)
  {
    if list != [] {
      UniqueIsDistinct(list[..|list| - 1]);
    }
  }

  lemma {:induction false} FirstIndexAppend(s: seq<string>, v: string, x: string)
    requires x in s
    ensures FirstIndex(s + [v], x) == FirstIndex(s, x)
  {
    if s[0] != x {
      assert (s + [v])[1..] == s[1..] + [v];
      FirstIndexAppend(s[1..], v, x);
    }
  }

  /** The kept elements appear in the order of their first occurrence. */
  lemma {:induction false} UniqueKeepsFirstOccurrenceOrder(list: seq<string>)
    ensures forall x :: x in Unique(list) ==> x in list
    ensures forall i, j :: 0 <= i < j < |Unique(list)| ==>
      FirstIndex(list, Unique(list)[i]) < FirstIndex(list, Unique(list)[j])
  {
    if list != [] {
      var init := list[..|list| - 1];
      var v := list[|list| - 1];
      var kept := Unique(init);
      UniqueKeepsFirstOccurrenceOrder(init);
      assert list == init + [v];
      forall x | x in kept ensures FirstIndex(list, x) == FirstIndex(init, x) {
        FirstIndexAppend(init, v, x);
      }
      if v != "" && v !in kept {
        UniqueMembers(init, v);
        assert FirstIndex(list, v) == |init|;
      }
    }
  }

  /** A list without duplicates and without empty strings is left as it is. */
  lemma {:induction false} UniqueOfDistinct(list: seq<string>)
    requires NoDuplicates(list) && "" !in list
    ensures Unique(list) == list
  {
    if list != [] {
      var init := list[..|list| - 1];
      UniqueOfDistinct(init);
      assert list[|list| - 1] !in init;
      assert list == init + [list[|list| - 1]];
    }
  }

  /** Deduplicating twice is the same as deduplicating once. */
  lemma UniqueIdempotent(list: seq<string>)
    ensures Unique(Unique(list)) == Unique(list)
  {
    UniqueIsDistinct(list);
    UniqueOfDistinct(Unique(list));
  }
}
